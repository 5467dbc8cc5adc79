/**
 Incremental cycle detection: a directed graph under construction, kept acyclic by a dynamic
 topological order. Iteration over a hash set is an arbitrary choice among its elements.
 */
module GraphCycles {
  import opened Digraph
  import opened PearceKelly
  import opened Sets

  /** The identifiers below n. */
  ghost function Below(n: nat): (s: set<int>)
    ensures forall v :: v in s <==> 0 <= v < n
  {
    if n == 0 then {} else Below(n - 1) + {n - 1}
  }

  // ---------- what the searches keep, on the values of the ghost fields ----------

  /** `delta` lists the members of S without repetition. */
  ghost predicate Lists(delta: seq<int>, S: set<int>) {
    NoDup(delta) && Elems(delta) == S
  }

  lemma ListsAppend(delta: seq<int>, S: set<int>, n: int)
    requires Lists(delta, S) && n !in S
    ensures Lists(delta + [n], S + {n})
  {
    ElemsAppend(delta, n);
    forall i | 0 <= i < |delta| ensures delta[i] != n {
      assert delta[i] in Elems(delta);
    }
  }

  /** S lies inside R and ranks below the bound. */
  ghost predicate AllBelow(R: set<int>, ranks: seq<int>, bound: int, S: set<int>) {
    forall v :: v in S ==> v in R && 0 <= v < |ranks| && ranks[v] < bound
  }

  /** S lies inside R and ranks above the bound. */
  ghost predicate AllAbove(R: set<int>, ranks: seq<int>, bound: int, S: set<int>) {
    forall v :: v in S ==> v in R && 0 <= v < |ranks| && bound < ranks[v]
  }

  /** R keeps every successor of its members of rank below the bound. */
  ghost predicate KeepsSuccessors(E: Edges, ranks: seq<int>, bound: int, R: set<int>) {
    forall u, w :: (u, w) in E && u in R && 0 <= u < |ranks| && ranks[u] < bound ==> w in R
  }

  /** R keeps every predecessor of its members of rank above the bound. */
  ghost predicate KeepsPredecessors(E: Edges, ranks: seq<int>, bound: int, R: set<int>) {
    forall u, w :: (w, u) in E && u in R && 0 <= u < |ranks| && bound < ranks[u] ==> w in R
  }

  /** No node of S leads to the bound, and below the bound it leads only to S and `todo`. */
  ghost predicate ForwardClosed(E: Edges, ranks: seq<int>, S: set<int>, bound: int, todo: set<int>) {
    forall u, w :: (u, w) in E && u in S ==>
      0 <= w < |ranks| && ranks[w] != bound && (ranks[w] < bound ==> w in S || w in todo)
  }

  /** Above the bound, the predecessors of S are in S, in `before` or in `todo`. */
  ghost predicate BackwardClosed(E: Edges, ranks: seq<int>, before: set<int>, S: set<int>, bound: int, todo: set<int>) {
    forall u, w :: (w, u) in E && u in S ==>
      0 <= w < |ranks| && (bound < ranks[w] ==> w in S || w in before || w in todo)
  }

  /** What the forward search keeps while `todo` is what is left on its stack. */
  ghost predicate SearchingForward(E: Edges, R: set<int>, ranks: seq<int>, marks: set<int>, start: int, bound: int,
                                   todo: set<int>)
  {
    && AllBelow(R, ranks, bound, marks)
    && AllBelow(R, ranks, bound, todo)
    && (start in marks || start in todo)
    && ForwardClosed(E, ranks, marks, bound, todo)
  }

  /** What the backward search keeps; `before` holds the marks it found set, `S` those it has set. */
  ghost predicate SearchingBackward(E: Edges, R: set<int>, ranks: seq<int>, before: set<int>, S: set<int>, start: int,
                                    bound: int, todo: set<int>)
  {
    && S !! before
    && AllAbove(R, ranks, bound, S)
    && AllAbove(R, ranks, bound, todo)
    && (start in S || start in todo)
    && BackwardClosed(E, ranks, before, S, bound, todo)
  }

  lemma BothCleared(marks: set<int>, A: set<int>, B: set<int>)
    requires marks <= A + B
    ensures marks - A - B == {}
  {
  }

  lemma SortElems(ranks: seq<int>, s: seq<int>)
    requires InRange(s, |ranks|)
    ensures Elems(SortByRank(ranks, s)) == Elems(s)
  {
    forall v ensures v in SortByRank(ranks, s) <==> v in s {
      SameElements(SortByRank(ranks, s), s, v);
    }
    SameMembers(Elems(SortByRank(ranks, s)), Elems(s));
  }

  // ---------- what the searches achieve for a new edge ----------

  /** The forward search starting at y may follow every edge but the new one. */
  lemma ForwardScope(E: Edges, ranks: seq<int>, x: int, y: int)
    requires Ascending(E, ranks) && 0 <= x < |ranks| && 0 <= y < |ranks|
    ensures y in ReachedFrom(E, y, |ranks|)
    ensures KeepsSuccessors(E + {(x, y)}, ranks, ranks[x], ReachedFrom(E, y, |ranks|))
  {
    ReachesSelf(E, y);
    var R := ReachedFrom(E, y, |ranks|);
    forall u, w | (u, w) in E + {(x, y)} && u in R && ranks[u] < ranks[x]
      ensures w in R
    {
      ReachesStep(E, y, u, w);
    }
  }

  lemma BackwardScope(E: Edges, ranks: seq<int>, x: int, y: int)
    requires Ascending(E, ranks) && 0 <= x < |ranks| && 0 <= y < |ranks|
    ensures x in Reaching(E, x, |ranks|)
    ensures KeepsPredecessors(E + {(x, y)}, ranks, ranks[y], Reaching(E, x, |ranks|))
  {
    ReachesSelf(E, x);
    var R := Reaching(E, x, |ranks|);
    forall u, w | (w, u) in E + {(x, y)} && u in R && ranks[y] < ranks[u]
      ensures w in R
    {
      StepReaches(E, w, u, x);
    }
  }

  /** Meeting the rank of x means that y already reaches x. */
  lemma ForwardFoundCycle(E: Edges, ranks: seq<int>, marks: set<int>, x: int, y: int)
    requires Permutation(ranks) && Ascending(E, ranks) && 0 <= x < |ranks| && 0 <= y < |ranks|
    requires AllBelow(ReachedFrom(E, y, |ranks|), ranks, ranks[x], marks)
    requires exists u, w :: (u, w) in E + {(x, y)} && u in marks && 0 <= w < |ranks| && ranks[w] == ranks[x]
    ensures Reaches(E, y, x)
  {
    var u, w :| (u, w) in E + {(x, y)} && u in marks && 0 <= w < |ranks| && ranks[w] == ranks[x];
    if w != x {
      DistinctRanks(ranks, w, x);
    }
    ReachesStep(E, y, u, x);
  }

  /** Both searches together find the affected region. */
  lemma SearchesAffect(E: Edges, ranks: seq<int>, F: set<int>, B: set<int>, x: int, y: int, back: seq<int>,
                       fwd: seq<int>)
    requires Permutation(ranks) && Ascending(E, ranks) && 0 <= x < |ranks| && 0 <= y < |ranks|
    requires Lists(fwd, F) && Lists(back, B)
    requires AllBelow(ReachedFrom(E, y, |ranks|), ranks, ranks[x], F)
    requires y in F && ForwardClosed(E + {(x, y)}, ranks, F, ranks[x], {})
    requires SearchingBackward(E + {(x, y)}, Reaching(E, x, |ranks|), ranks, F, B, x, ranks[y], {})
    ensures Affected(E, ranks, x, y, back, fwd)
  {
    forall v ensures v in fwd <==> v in F { }
    forall v ensures v in back <==> v in B { }
    forall v | v in F
      ensures 0 <= v < |ranks| && ranks[y] <= ranks[v] <= ranks[x]
    {
      ReachesAscends(E, ranks, y, v);
    }
    forall v | v in B
      ensures 0 <= v < |ranks| && ranks[y] <= ranks[v] <= ranks[x]
    {
      ReachesAscends(E, ranks, v, x);
    }
    forall u, w | (w, u) in E && u in B && ranks[w] > ranks[y]
      ensures w in B
    {
      // a forward node leads to no backward node
      assert (w, u) in E + {(x, y)};
      ReachesAscends(E, ranks, u, x);
    }
    forall u, w | (u, w) in E && u in F
      ensures ranks[w] != ranks[x] && (ranks[w] < ranks[x] ==> w in F)
    {
      assert (u, w) in E + {(x, y)};
    }
    assert InRange(fwd, |ranks|) by {
      forall k | 0 <= k < |fwd| ensures 0 <= fwd[k] < |ranks| { assert fwd[k] in F; }
    }
    assert InRange(back, |ranks|) by {
      forall k | 0 <= k < |back| ensures 0 <= back[k] < |ranks| { assert back[k] in B; }
    }
  }

  /** A new edge along the order closes no cycle. */
  lemma ForwardInsert(E: Edges, ranks: seq<int>, x: int, y: int)
    requires Permutation(ranks) && Ascending(E, ranks)
    requires 0 <= x < |ranks| && 0 <= y < |ranks| && x != y && ranks[x] <= ranks[y]
    ensures Ascending(E + {(x, y)}, ranks) && !Reaches(E, y, x)
  {
    DistinctRanks(ranks, x, y);
    AscendingIsAcyclic(E + {(x, y)}, ranks);
    SubgraphInsertSafe(E, E + {(x, y)}, x, y);
  }

  /** The region found and reordered proves that the new edge closes no cycle. */
  lemma ReorderedInsert(E: Edges, ranks: seq<int>, after: seq<int>, x: int, y: int, back: seq<int>, fwd: seq<int>)
    requires Affected(E, ranks, x, y, back, fwd) && Reordered(ranks, after, back, fwd)
    ensures Permutation(after) && Ascending(E + {(x, y)}, after) && !Reaches(E, y, x)
  {
    ReorderAscends(E, ranks, after, x, y, back, fwd);
    AscendingIsAcyclic(E + {(x, y)}, after);
    SubgraphInsertSafe(E, E + {(x, y)}, x, y);
  }

  /** The two lists are exactly what y reaches below the rank of x, and what reaches x above the rank of y. */
  ghost predicate RegionExact(E: Edges, ranks: seq<int>, x: int, y: int, back: seq<int>, fwd: seq<int>)
    requires 0 <= x < |ranks| && 0 <= y < |ranks|
  {
    forall v :: 0 <= v < |ranks| ==>
      && (v in fwd <==> Reaches(E, y, v) && ranks[v] < ranks[x])
      && (v in back <==> Reaches(E, v, x) && ranks[y] < ranks[v])
  }

  lemma ForwardComplete(E: Edges, ranks: seq<int>, x: int, y: int, back: seq<int>, fwd: seq<int>, v: int)
    requires Affected(E, ranks, x, y, back, fwd) && 0 <= v < |ranks|
    requires Reaches(E, y, v) && ranks[v] < ranks[x]
    ensures v in fwd
  {
    var C := Elems(fwd) + set u | 0 <= u < |ranks| && ranks[x] <= ranks[u];
    assert Closed(E, C);
    ClosedContainsReachable(E, C, y, v);
  }

  lemma BackwardComplete(E: Edges, ranks: seq<int>, x: int, y: int, back: seq<int>, fwd: seq<int>, v: int)
    requires Affected(E, ranks, x, y, back, fwd) && 0 <= v < |ranks|
    requires Reaches(E, v, x) && ranks[y] < ranks[v]
    ensures v in back
  {
    // the nodes above the bound that are not collected can never lead to x
    var C := set u | 0 <= u < |ranks| && ranks[y] < ranks[u] && u !in back;
    if v !in back {
      assert Closed(E, C);
      ClosedContainsReachable(E, C, v, x);
    }
  }

  lemma SearchesExact(E: Edges, ranks: seq<int>, x: int, y: int, back: seq<int>, fwd: seq<int>)
    requires Affected(E, ranks, x, y, back, fwd)
    requires AllBelow(ReachedFrom(E, y, |ranks|), ranks, ranks[x], Elems(fwd))
    requires AllAbove(Reaching(E, x, |ranks|), ranks, ranks[y], Elems(back))
    ensures RegionExact(E, ranks, x, y, back, fwd)
  {
    forall v | 0 <= v < |ranks|
      ensures v in fwd <==> Reaches(E, y, v) && ranks[v] < ranks[x]
      ensures v in back <==> Reaches(E, v, x) && ranks[y] < ranks[v]
    {
      assert v in fwd ==> v in Elems(fwd);
      assert v in back ==> v in Elems(back);
      if Reaches(E, y, v) && ranks[v] < ranks[x] {
        ForwardComplete(E, ranks, x, y, back, fwd, v);
      }
      if Reaches(E, v, x) && ranks[y] < ranks[v] {
        BackwardComplete(E, ranks, x, y, back, fwd, v);
      }
    }
  }

  // ---------- reachability queries ----------

  lemma NotReachedUphill(E: Edges, ranks: seq<int>, x: int, y: int)
    requires Ascending(E, ranks) && x != y
    requires 0 <= x < |ranks| && 0 <= y < |ranks| && ranks[x] >= ranks[y]
    ensures !Reaches(E, x, y)
  {
    if Reaches(E, x, y) {
      ReachesAscends(E, ranks, x, y);
    }
  }

  lemma SearchScope(E: Edges, ranks: seq<int>, x: int, y: int)
    requires Ascending(E, ranks) && 0 <= x < |ranks| && 0 <= y < |ranks|
    ensures x in ReachedFrom(E, x, |ranks|)
    ensures KeepsSuccessors(E, ranks, ranks[y], ReachedFrom(E, x, |ranks|))
  {
    ReachesSelf(E, x);
    var R := ReachedFrom(E, x, |ranks|);
    forall u, w | (u, w) in E && u in R
      ensures w in R
    {
      ReachesStep(E, x, u, w);
    }
  }

  lemma SearchFound(E: Edges, ranks: seq<int>, marks: set<int>, x: int, y: int)
    requires Permutation(ranks) && Ascending(E, ranks) && 0 <= y < |ranks|
    requires AllBelow(ReachedFrom(E, x, |ranks|), ranks, ranks[y], marks)
    requires exists u, w :: (u, w) in E && u in marks && 0 <= w < |ranks| && ranks[w] == ranks[y]
    ensures Reaches(E, x, y)
  {
    var u, w :| (u, w) in E && u in marks && 0 <= w < |ranks| && ranks[w] == ranks[y];
    if w != y {
      DistinctRanks(ranks, w, y);
    }
    ReachesStep(E, x, u, y);
  }

  /** An edge taken out of a valid graph goes back in, against no rank. */
  lemma RestoresEdge(E: Edges, ranks: seq<int>, a: int, b: int)
    requires Ascending(E, ranks) && (a, b) in E
    ensures 0 <= a < |ranks| && 0 <= b < |ranks| && ranks[a] < ranks[b]
    ensures a != b && !Reaches(E - {(a, b)}, b, a)
    ensures E - {(a, b)} + {(a, b)} == E
  {
    AscendingIsAcyclic(E, ranks);
    SubgraphInsertSafe(E - {(a, b)}, E, a, b);
  }

  // ---------- the path search ----------

  /** Read from the top, the stack holds what is left to try at each node of the walk, marker by marker. */
  ghost predicate Traces(E: Edges, x: int, stack: seq<int>, route: seq<int>)
    decreases |stack|
  {
    if stack == [] then route == [] else
      var top, rest := stack[|stack| - 1], stack[..|stack| - 1];
      if top < 0 then route != [] && Traces(E, x, rest, route[..|route| - 1])
      else (if route == [] then top == x else (route[|route| - 1], top) in E) && Traces(E, x, rest, route)
  }

  lemma {:induction false} TraceLength(E: Edges, x: int, stack: seq<int>, route: seq<int>)
    requires Traces(E, x, stack, route)
    ensures |route| <= |stack|
    ensures stack != [] && stack[|stack| - 1] >= 0 ==> |route| < |stack|
    decreases |stack|
  {
    if stack != [] {
      var top, rest := stack[|stack| - 1], stack[..|stack| - 1];
      TraceLength(E, x, rest, if top < 0 then route[..|route| - 1] else route);
    }
  }

  lemma TracePush(E: Edges, x: int, stack: seq<int>, route: seq<int>, w: int)
    requires Traces(E, x, stack, route) && route != [] && w >= 0 && (route[|route| - 1], w) in E
    ensures Traces(E, x, stack + [w], route)
  {
    assert (stack + [w])[..|stack|] == stack;
  }

  lemma TraceEnter(E: Edges, x: int, stack: seq<int>, route: seq<int>, n: int)
    requires Traces(E, x, stack, route)
    ensures Traces(E, x, stack + [-1], route + [n])
  {
    assert (stack + [-1])[..|stack|] == stack;
    assert (route + [n])[..|route|] == route;
  }

  /** The nodes entered and not yet left form a path from x. */
  ghost predicate Walked(E: Edges, x: int, route: seq<int>) {
    route != [] ==> IsPath(E, route) && route[0] == x
  }

  lemma WalkOn(E: Edges, x: int, route: seq<int>, n: int)
    requires Walked(E, x, route)
    requires if route == [] then n == x else (route[|route| - 1], n) in E
    ensures Walked(E, x, route + [n])
  {
    if route != [] {
      PathExtend(E, route, n);
    }
  }

  lemma WalkBack(E: Edges, x: int, route: seq<int>)
    requires Walked(E, x, route) && route != []
    ensures Walked(E, x, route[..|route| - 1])
  {
    if |route| > 1 {
      PathShorten(E, route);
    }
  }

  lemma WalkFinished(E: Edges, ranks: seq<int>, x: int, route: seq<int>)
    requires Permutation(ranks) && Ascending(E, ranks) && Walked(E, x, route) && route != []
    requires 0 <= x < |ranks|
    ensures NoDup(route) && |route| <= |ranks|
    ensures PathFromTo(E, x, route[|route| - 1], route) && Reaches(E, x, route[|route| - 1])
  {
    assert PathFromTo(E, x, route[|route| - 1], route);
    forall i, j | 0 <= i < j < |route|
      ensures route[i] != route[j]
    {
      PathClimbs(E, ranks, route, i, j);
    }
    if |route| > 1 {
      PathClimbs(E, ranks, route, 0, |route| - 1);
    }
  }

  /** Every node met is entered or on the stack, and the nodes entered lead only to nodes met. */
  ghost predicate Explored(E: Edges, x: int, y: int, seen: set<int>, entered: set<int>, todo: set<int>) {
    && y !in entered
    && (x in entered || x in todo)
    && (forall w :: w in seen ==> w in entered || w in todo)
    && (forall u, w :: (u, w) in E && u in entered ==> w in seen)
  }

  lemma StartWalk(E: Edges, x: int, y: int)
    requires x >= 0
    ensures Traces(E, x, [x], []) && Walked(E, x, []) && Explored(E, x, y, {}, {}, Elems([x]))
  {
    assert [x][..0] == [];
  }

  /** When nothing is left to do, the nodes entered are closed and y is not among them. */
  lemma NothingLeft(E: Edges, x: int, y: int, seen: set<int>, entered: set<int>)
    requires Explored(E, x, y, seen, entered, {})
    ensures !Reaches(E, x, y)
  {
    if Reaches(E, x, y) {
      ClosedContainsReachable(E, entered, x, y);
    }
  }

  lemma MeetOne(all: set<int>, seen: set<int>, w: int)
    requires w in all && w !in seen
    ensures |all - (seen + {w})| == |all - seen| - 1
  {
    assert all - (seen + {w}) == (all - seen) - {w};
  }

  class Node {
    var rank: int
    var visited: bool
    var ins: set<int>
    var outs: set<int>

    constructor ()
      ensures rank == -1 && !visited && ins == {} && outs == {}
    {
      rank, visited, ins, outs := -1, false, {}, {};
    }
  }

  class GraphCycles {
    var nodes: seq<Node>
    var freeNodes: seq<int>  // indices of unused entries in nodes

    // temporary state
    var deltaf: seq<int>  // results of the forward search
    var deltab: seq<int>  // results of the backward search
    var list: seq<int>    // all nodes to reprocess
    var merged: seq<int>  // rank values to assign to the entries of list
    var stack: seq<int>   // emulates the recursion of a depth-first search

    // the abstract graph
    ghost var E: Edges          // the edges, as the out sets record them
    ghost var Ein: Edges        // the edges, as the in sets record them
    ghost var ranks: seq<int>
    ghost var marks: set<int>   // the nodes whose visited bit is set
    ghost var Repr: set<object>

    ghost predicate NodesDistinct()
      reads this`nodes
    {
      forall i, j :: 0 <= i < j < |nodes| ==> nodes[i] != nodes[j]
    }

    ghost predicate RanksTied()
      reads this`nodes, this`ranks, nodes`rank
    {
      |ranks| == |nodes| && forall i :: 0 <= i < |nodes| ==> nodes[i].rank == ranks[i]
    }

    ghost predicate MarksTied()
      reads this`nodes, this`marks, nodes`visited
    {
      && (forall i :: 0 <= i < |nodes| ==> (nodes[i].visited <==> i in marks))
      && (forall i :: i in marks ==> 0 <= i < |nodes|)
    }

    ghost predicate OutsTied()
      reads this`nodes, this`E, nodes`outs
    {
      && (forall i, j :: 0 <= i < |nodes| ==> (j in nodes[i].outs <==> (i, j) in E))
      && (forall i, j :: (i, j) in E ==> 0 <= i < |nodes| && 0 <= j < |nodes|)
    }

    ghost predicate InsTied()
      reads this`nodes, this`Ein, nodes`ins
    {
      && (forall i, j :: 0 <= j < |nodes| ==> (i in nodes[j].ins <==> (i, j) in Ein))
      && (forall i, j :: (i, j) in Ein ==> 0 <= i < |nodes| && 0 <= j < |nodes|)
    }

    /** The ghost fields mirror the nodes. Holds at every moment inside an operation. */
    ghost predicate Tied()
      reads this`nodes, this`ranks, this`marks, this`E, this`Ein, nodes
    {
      NodesDistinct() && RanksTied() && MarksTied() && OutsTied() && InsTied()
    }

    /** The objects an operation may touch. */
    ghost predicate Owned()
      reads this`nodes, this`Repr
    {
      this in Repr && forall i :: 0 <= i < |nodes| ==> nodes[i] in Repr
    }

    /** The representation invariant between operations. */
    ghost predicate Valid()
      reads this`nodes, this`freeNodes, this`ranks, this`marks, this`E, this`Ein, this`Repr, nodes
    {
      && Owned()
      && Tied()
      && Ein == E
      && marks == {}
      && Permutation(ranks)
      && Ascending(E, ranks)
      && FreeUnused()
    }

    /** The graph never has a cycle. */
    lemma ValidIsAcyclic()
      requires Valid()
      ensures Acyclic(E)
    {
      AscendingIsAcyclic(E, ranks);
    }

    /** Free entries are distinct, in range and carry no edge. */
    ghost predicate FreeUnused()
      reads this`freeNodes, this`nodes, this`E
    {
      && InRange(freeNodes, |nodes|)
      && NoDup(freeNodes)
      && (forall i, j :: (i, j) in E ==> i !in freeNodes && j !in freeNodes)
    }

    /** An identifier a caller may use: allocated and not freed. */
    ghost predicate Live(v: int)
      reads this`freeNodes, this`nodes
    {
      0 <= v < |nodes| && v !in freeNodes
    }

    constructor ()
      ensures Valid() && fresh(Repr)
      ensures E == {} && nodes == [] && freeNodes == []
    {
      nodes, freeNodes := [], [];
      deltaf, deltab, list, merged, stack := [], [], [], [], [];
      E, Ein, ranks, marks := {}, {}, [], {};
      Repr := {this};
    }

    // ---------- single-field updates ----------

    method SetRank(v: int, r: int)
      requires Tied() && 0 <= v < |nodes|
      modifies {nodes[v]}`rank, this`ranks
      ensures Tied() && ranks == old(ranks)[v := r]
    {
      nodes[v].rank := r;
      ranks := ranks[v := r];
    }

    method SetVisited(v: int, b: bool)
      requires Tied() && 0 <= v < |nodes|
      modifies {nodes[v]}`visited, this`marks
      ensures Tied() && marks == if b then old(marks) + {v} else old(marks) - {v}
    {
      nodes[v].visited := b;
      marks := if b then marks + {v} else marks - {v};
    }

    method InsertOut(x: int, y: int)
      requires Tied() && 0 <= x < |nodes| && 0 <= y < |nodes|
      modifies {nodes[x]}`outs, this`E
      ensures Tied() && E == old(E) + {(x, y)}
    {
      nodes[x].outs := nodes[x].outs + {y};
      E := E + {(x, y)};
    }

    method InsertIn(y: int, x: int)
      requires Tied() && 0 <= x < |nodes| && 0 <= y < |nodes|
      modifies {nodes[y]}`ins, this`Ein
      ensures Tied() && Ein == old(Ein) + {(x, y)}
    {
      nodes[y].ins := nodes[y].ins + {x};
      Ein := Ein + {(x, y)};
    }

    method EraseOut(x: int, y: int)
      requires Tied() && 0 <= x < |nodes|
      modifies {nodes[x]}`outs, this`E
      ensures Tied() && E == old(E) - {(x, y)}
    {
      nodes[x].outs := nodes[x].outs - {y};
      E := E - {(x, y)};
    }

    method EraseIn(y: int, x: int)
      requires Tied() && 0 <= y < |nodes|
      modifies {nodes[y]}`ins, this`Ein
      ensures Tied() && Ein == old(Ein) - {(x, y)}
    {
      nodes[y].ins := nodes[y].ins - {x};
      Ein := Ein - {(x, y)};
    }

    // ---------- the bounded searches ----------

    method Pop() returns (n: int)
      requires Tied() && stack != []
      modifies this`stack
      ensures Tied() && |stack| < |old(stack)| && Elems(old(stack)) == Elems(stack) + {n}
    {
      PopLast(stack);
      n := stack[|stack| - 1];
      stack := stack[..|stack| - 1];
    }

    /** Pushes the unvisited successors of `n` below the bound; fails on meeting the bound. */
    method PushSuccessors(n: int, upperBound: int) returns (ok: bool)
      requires Tied() && 0 <= n < |nodes|
      modifies this`stack
      ensures Tied() && Elems(old(stack)) <= Elems(stack)
      ensures forall v :: v in Elems(stack) ==> v in Elems(old(stack)) || ((n, v) in E && ranks[v] < upperBound)
      ensures ok ==> forall w :: (n, w) in E ==>
                ranks[w] != upperBound && (ranks[w] < upperBound ==> w in marks || w in Elems(stack))
      ensures !ok ==> exists w :: (n, w) in E && ranks[w] == upperBound
    {
      var rest := nodes[n].outs;
      while rest != {}
        invariant rest <= nodes[n].outs
        invariant Tied() && Elems(old(stack)) <= Elems(stack)
        invariant forall v :: v in Elems(stack) ==> v in Elems(old(stack)) || ((n, v) in E && ranks[v] < upperBound)
        invariant forall w :: w in nodes[n].outs && w !in rest ==>
                    (n, w) in E && ranks[w] != upperBound && (ranks[w] < upperBound ==> w in marks || w in Elems(stack))
      {
        ghost var some := SomeMember(rest);
        var w :| w in rest;
        rest := rest - {w};
        assert (n, w) in E;
        if nodes[w].rank == upperBound {
          return false;  // cycle
        }
        if !nodes[w].visited && nodes[w].rank < upperBound {
          ElemsAppend(stack, w);
          stack := stack + [w];
        }
      }
      return true;
    }

    /** The body of the forward search's loop: `n` has just been taken from the stack. */
    method VisitForward(n: int, upperBound: int, ghost R: set<int>, ghost start: int) returns (ok: bool)
      requires Tied() && 0 <= n < |nodes| && Lists(deltaf, marks)
      requires SearchingForward(E, R, ranks, marks, start, upperBound, Elems(stack) + {n})
      requires KeepsSuccessors(E, ranks, upperBound, R)
      modifies this`deltaf, this`stack, this`marks, nodes`visited
      ensures Tied() && marks == old(marks) + {n} && Lists(deltaf, marks)
      ensures n in old(marks) ==> stack == old(stack)
      ensures AllBelow(R, ranks, upperBound, marks)
      ensures ok ==> SearchingForward(E, R, ranks, marks, start, upperBound, Elems(stack))
      ensures !ok ==> exists w :: (n, w) in E && ranks[w] == upperBound
    {
      if nodes[n].visited {
        return true;
      }
      ListsAppend(deltaf, marks, n);
      SetVisited(n, true);
      deltaf := deltaf + [n];
      ok := PushSuccessors(n, upperBound);
    }

    /**
     Depth-first search from `start` through nodes of rank below `upperBound`. Fails when an edge
     leads to the node of rank `upperBound`. It marks no more than any set R must contain that holds
     `start` and keeps the successors of its members below the bound.
     */
    method ForwardDFS(start: int, upperBound: int, ghost R: set<int>) returns (ok: bool)
      requires Tied() && marks == {}
      requires 0 <= start < |nodes| && ranks[start] < upperBound
      requires start in R && KeepsSuccessors(E, ranks, upperBound, R)
      modifies this`deltaf, this`stack, this`marks, nodes`visited
      ensures Tied() && Lists(deltaf, marks) && AllBelow(R, ranks, upperBound, marks)
      ensures ok ==> start in marks && ForwardClosed(E, ranks, marks, upperBound, {})
      ensures !ok ==> exists u, w :: (u, w) in E && u in marks && ranks[w] == upperBound
    {
      hide KeepsSuccessors;
      deltaf := [];
      stack := [start];
      ghost var all := Below(|nodes|);
      while stack != []
        invariant Tied() && Lists(deltaf, marks)
        invariant SearchingForward(E, R, ranks, marks, start, upperBound, Elems(stack))
        decreases all - marks, |stack|
      {
        var n := Pop();
        var found := VisitForward(n, upperBound, R, start);
        if !found {
          return false;
        }
      }
      return true;
    }

    /** Pushes the unvisited predecessors of `n` above the bound. */
    method PushPredecessors(n: int, lowerBound: int)
      requires Tied() && 0 <= n < |nodes|
      modifies this`stack
      ensures Tied() && Elems(old(stack)) <= Elems(stack)
      ensures forall v :: v in Elems(stack) ==> v in Elems(old(stack)) || ((v, n) in Ein && lowerBound < ranks[v])
      ensures forall w :: (w, n) in Ein && lowerBound < ranks[w] ==> w in marks || w in Elems(stack)
    {
      var rest := nodes[n].ins;
      while rest != {}
        invariant rest <= nodes[n].ins
        invariant Tied() && Elems(old(stack)) <= Elems(stack)
        invariant forall v :: v in Elems(stack) ==> v in Elems(old(stack)) || ((v, n) in Ein && lowerBound < ranks[v])
        invariant forall w :: w in nodes[n].ins && w !in rest ==>
                    (w, n) in Ein && (lowerBound < ranks[w] ==> w in marks || w in Elems(stack))
      {
        ghost var some := SomeMember(rest);
        var w :| w in rest;
        rest := rest - {w};
        assert (w, n) in Ein;
        if !nodes[w].visited && lowerBound < nodes[w].rank {
          ElemsAppend(stack, w);
          stack := stack + [w];
        }
      }
    }

    /** The body of the backward search's loop: `n` has just been taken from the stack. */
    method VisitBackward(n: int, lowerBound: int, ghost R: set<int>, ghost start: int, ghost before: set<int>,
                         ghost S: set<int>)
      returns (ghost T: set<int>)
      requires Tied() && 0 <= n < |nodes| && start !in before && Lists(deltab, S) && marks == before + S
      requires SearchingBackward(Ein, R, ranks, before, S, start, lowerBound, Elems(stack) + {n})
      requires KeepsPredecessors(Ein, ranks, lowerBound, R)
      modifies this`deltab, this`stack, this`marks, nodes`visited
      ensures Tied() && Lists(deltab, T) && marks == before + T && marks == old(marks) + {n}
      ensures n in old(marks) ==> stack == old(stack)
      ensures SearchingBackward(Ein, R, ranks, before, T, start, lowerBound, Elems(stack))
    {
      if nodes[n].visited {
        T := S;
        return;
      }
      T := S + {n};
      ListsAppend(deltab, S, n);
      SetVisited(n, true);
      deltab := deltab + [n];
      PushPredecessors(n, lowerBound);
    }

    /**
     Depth-first search against the edges from `start`, through unmarked nodes of rank above
     `lowerBound`. It marks no more than any set R must contain that holds `start` and keeps the
     predecessors of its members above the bound.
     */
    method BackwardDFS(start: int, lowerBound: int, ghost R: set<int>) returns (ghost S: set<int>)
      requires Tied() && 0 <= start < |nodes| && start !in marks && lowerBound < ranks[start]
      requires start in R && KeepsPredecessors(Ein, ranks, lowerBound, R)
      modifies this`deltab, this`stack, this`marks, nodes`visited
      ensures Tied() && Lists(deltab, S) && marks == old(marks) + S
      ensures SearchingBackward(Ein, R, ranks, old(marks), S, start, lowerBound, {})
    {
      hide KeepsPredecessors;
      deltab := [];
      stack := [start];
      S := {};
      ghost var all := Below(|nodes|);
      while stack != []
        invariant Tied() && Lists(deltab, S) && marks == old(marks) + S
        invariant SearchingBackward(Ein, R, ranks, old(marks), S, start, lowerBound, Elems(stack))
        decreases all - marks, |stack|
      {
        var n := Pop();
        S := VisitBackward(n, lowerBound, R, start, old(marks), S);
      }
    }

    method ClearVisitedBits(delta: seq<int>)
      requires Tied() && InRange(delta, |nodes|)
      modifies this`marks, nodes`visited
      ensures Tied() && marks == old(marks) - Elems(delta)
    {
      for i := 0 to |delta|
        invariant Tied() && marks == old(marks) - Elems(delta[..i])
      {
        ElemsAppend(delta[..i], delta[i]);
        SetVisited(delta[i], false);
        assert delta[..i + 1] == delta[..i] + [delta[i]];
      }
      assert delta[..|delta|] == delta;
    }

    // ---------- reordering ----------

    /** The ranks stored in the nodes. */
    method CurrentRanks() returns (table: seq<int>)
      requires Tied()
      ensures table == ranks
    {
      table := [];
      for i := 0 to |nodes|
        invariant |table| == i && forall k :: 0 <= k < i ==> table[k] == ranks[k]
      {
        table := table + [nodes[i].rank];
      }
    }

    /** Appends the nodes of `src` to the list, clears their visited bits, and returns their ranks. */
    method MoveToList(src: seq<int>) returns (held: seq<int>)
      requires Tied() && InRange(src, |nodes|)
      modifies this`list, this`marks, nodes`visited
      ensures Tied() && list == old(list) + src && held == RanksOf(ranks, src)
      ensures marks == old(marks) - Elems(src)
    {
      held := [];
      for i := 0 to |src|
        invariant Tied() && list == old(list) + src[..i]
        invariant |held| == i && forall k :: 0 <= k < i ==> held[k] == ranks[src[k]]
        invariant marks == old(marks) - Elems(src[..i])
      {
        ElemsAppend(src[..i], src[i]);
        var w := src[i];
        held := held + [nodes[w].rank];  // replaces the entry with its rank
        SetVisited(w, false);            // prepares for future searches
        list := list + [w];
        assert src[..i + 1] == src[..i] + [w];
      }
      assert src[..|src|] == src;
    }

    /** Hands the i-th merged rank to the i-th collected node. */
    method AssignRanks()
      requires Tied() && InRange(list, |nodes|) && NoDup(list) && |merged| == |list|
      modifies this`ranks, nodes`rank
      ensures Tied()
      ensures forall k :: 0 <= k < |list| ==> ranks[list[k]] == merged[k]
      ensures forall v :: 0 <= v < |ranks| && v !in list ==> ranks[v] == old(ranks)[v]
    {
      for i := 0 to |list|
        invariant Tied()
        invariant forall k :: 0 <= k < i ==> ranks[list[k]] == merged[k]
        invariant forall v :: 0 <= v < |ranks| && v !in list ==> ranks[v] == old(ranks)[v]
      {
        SetRank(list[i], merged[i]);
      }
    }

    /** Pools the collected ranks and redistributes them. */
    method MergeAndAssign(ghost back: seq<int>, ghost fwd: seq<int>)
      requires Tied() && Searched(ranks, back, fwd)
      requires list == Collected(ranks, back, fwd)
      requires deltab == RanksOf(ranks, SortByRank(ranks, back)) && deltaf == RanksOf(ranks, SortByRank(ranks, fwd))
      modifies this`merged, this`ranks, nodes`rank
      ensures Tied() && Reordered(old(ranks), ranks, back, fwd)
    {
      hide Merge, SortByRank, Permutation;
      CollectedNoDup(ranks, back, fwd);
      merged := Merge(deltab, deltaf);
      AssignRanks();
    }

    /** Sorts both delta lists by rank. */
    method SortDeltas()
      requires Tied() && InRange(deltab, |ranks|) && InRange(deltaf, |ranks|)
      modifies this`deltab, this`deltaf
      ensures Tied()
      ensures deltab == SortByRank(ranks, old(deltab)) && deltaf == SortByRank(ranks, old(deltaf))
    {
      var table := CurrentRanks();
      deltab := SortByRank(table, deltab);
      deltaf := SortByRank(table, deltaf);
    }

    /** Fills the list, backward nodes first, and replaces both delta lists by their ranks. */
    method CollectDeltas(ghost back: seq<int>, ghost fwd: seq<int>)
      requires Tied() && InRange(back, |ranks|) && InRange(fwd, |ranks|)
      requires deltab == SortByRank(ranks, back) && deltaf == SortByRank(ranks, fwd)
      requires marks <= Elems(back) + Elems(fwd)
      modifies this`deltab, this`deltaf, this`list, this`marks, nodes`visited
      ensures Tied() && marks == {}
      ensures list == Collected(ranks, back, fwd)
      ensures deltab == RanksOf(ranks, SortByRank(ranks, back)) && deltaf == RanksOf(ranks, SortByRank(ranks, fwd))
    {
      hide SortByRank, RanksOf, Elems;
      SortElems(ranks, back);
      SortElems(ranks, fwd);
      BothCleared(marks, Elems(deltab), Elems(deltaf));
      list := [];
      EmptyPrefix(deltab);
      deltab := MoveToList(deltab);
      deltaf := MoveToList(deltaf);
    }

    method Reorder()
      requires Tied() && Searched(ranks, deltab, deltaf)
      requires marks <= Elems(deltab) + Elems(deltaf)
      modifies this`deltab, this`deltaf, this`list, this`merged, this`marks, this`ranks, nodes`visited, nodes`rank
      ensures Tied() && marks == {}
      ensures Reordered(old(ranks), ranks, old(deltab), old(deltaf))
    {
      SortDeltas();
      CollectDeltas(old(deltab), old(deltaf));
      MergeAndAssign(old(deltab), old(deltaf));
    }

    // ---------- edges ----------

    method HasEdge(x: int, y: int) returns (r: bool)
      requires Valid() && Live(x) && Live(y)
      ensures r <==> (x, y) in E
    {
      r := y in nodes[x].outs;
    }

    /** Everything an operation on edges leaves alone. */
    twostate predicate SameNodes()
      reads this`nodes, this`freeNodes, this`Repr
    {
      nodes == old(nodes) && freeNodes == old(freeNodes) && Repr == old(Repr)
    }

    /**
     Recomputes the ranks for the edge (x, y), just recorded against the order. Leaves marks behind
     when it finds that y reaches x.
     */
    method Adjust(x: int, y: int, ghost G: Edges) returns (ok: bool)
      requires Tied() && Ein == E && marks == {} && Permutation(ranks)
      requires 0 <= x < |nodes| && 0 <= y < |nodes| && ranks[y] < ranks[x]
      requires Ascending(G, ranks) && E == G + {(x, y)}
      modifies this`deltab, this`deltaf, this`stack, this`list, this`merged, this`marks, this`ranks
      modifies nodes`visited, nodes`rank
      ensures Tied() && |ranks| == |old(ranks)|
      ensures !ok ==> Reaches(G, y, x) && ranks == old(ranks) && marks == Elems(deltaf) && InRange(deltaf, |nodes|)
      ensures ok ==> marks == {} && Permutation(ranks) && Ascending(E, ranks) && !Reaches(G, y, x)
      ensures RanksMoveWithin(old(ranks), ranks, x, y)
    {
      ok := SearchBoth(x, y, G);
      if ok {
        ghost var back, fwd := deltab, deltaf;
        Reorder();
        ReorderedInsert(G, old(ranks), ranks, x, y, back, fwd);
        ReorderIsLocal(G, old(ranks), ranks, x, y, back, fwd);
      }
    }

    /** The forward search from y, below the rank of x. */
    method SearchForward(x: int, y: int, ghost G: Edges) returns (ok: bool)
      requires Tied() && marks == {} && Permutation(ranks)
      requires 0 <= x < |nodes| && 0 <= y < |nodes| && ranks[y] < ranks[x]
      requires Ascending(G, ranks) && E == G + {(x, y)}
      modifies this`deltaf, this`stack, this`marks, nodes`visited
      ensures Tied() && Lists(deltaf, marks) && AllBelow(ReachedFrom(G, y, |ranks|), ranks, ranks[x], marks)
      ensures ok ==> y in marks && ForwardClosed(E, ranks, marks, ranks[x], {})
      ensures !ok ==> Reaches(G, y, x) && InRange(deltaf, |nodes|)
    {
      hide Permutation, Ascending, ReachedFrom, KeepsSuccessors, ForwardClosed, Reaches;
      ForwardScope(G, ranks, x, y);
      ok := ForwardDFS(y, nodes[x].rank, ReachedFrom(G, y, |ranks|));
      if !ok {
        ForwardFoundCycle(G, ranks, marks, x, y);
        forall k | 0 <= k < |deltaf| ensures 0 <= deltaf[k] < |nodes| { assert deltaf[k] in Elems(deltaf); }
      }
    }

    /** The backward search from x, above the rank of y and apart from what is marked. */
    method SearchBackward(x: int, y: int, ghost G: Edges) returns (ghost B: set<int>)
      requires Tied() && Ein == E && x !in marks
      requires 0 <= x < |nodes| && 0 <= y < |nodes| && ranks[y] < ranks[x]
      requires Ascending(G, ranks) && E == G + {(x, y)}
      modifies this`deltab, this`stack, this`marks, nodes`visited
      ensures Tied() && Lists(deltab, B) && marks == old(marks) + B
      ensures SearchingBackward(E, Reaching(G, x, |ranks|), ranks, old(marks), B, x, ranks[y], {})
    {
      hide Ascending, Reaching, KeepsPredecessors, SearchingBackward, Lists;
      BackwardScope(G, ranks, x, y);
      B := BackwardDFS(x, nodes[y].rank, Reaching(G, x, |ranks|));
    }

    /** Both bounded searches, the backward one only when the forward one finds no cycle. */
    method SearchBoth(x: int, y: int, ghost G: Edges) returns (ok: bool)
      requires Tied() && Ein == E && marks == {} && Permutation(ranks)
      requires 0 <= x < |nodes| && 0 <= y < |nodes| && ranks[y] < ranks[x]
      requires Ascending(G, ranks) && E == G + {(x, y)}
      modifies this`deltab, this`deltaf, this`stack, this`marks, nodes`visited
      ensures Tied()
      ensures !ok ==> Reaches(G, y, x) && marks == Elems(deltaf) && InRange(deltaf, |nodes|)
      ensures ok ==> Affected(G, ranks, x, y, deltab, deltaf) && marks == Elems(deltab) + Elems(deltaf)
      ensures ok ==> RegionExact(G, ranks, x, y, deltab, deltaf)
    {
      hide Permutation, Ascending, Reaches, ReachedFrom, Reaching, ForwardClosed, BackwardClosed, Affected, RegionExact;
      ok := SearchForward(x, y, G);
      if ok {
        ghost var F := marks;
        ghost var B := SearchBackward(x, y, G);
        SearchesAffect(G, ranks, F, B, x, y, deltab, deltaf);
        SearchesExact(G, ranks, x, y, deltab, deltaf);
      }
    }

    /** Takes back the edge just recorded, with the marks the failed search left. */
    method Undo(x: int, y: int)
      requires Tied() && 0 <= x < |nodes| && 0 <= y < |nodes|
      requires marks == Elems(deltaf) && InRange(deltaf, |nodes|)
      modifies this`E, this`Ein, this`marks, nodes`outs, nodes`ins, nodes`visited
      ensures Tied() && marks == {} && E == old(E) - {(x, y)} && Ein == old(Ein) - {(x, y)}
    {
      EraseOut(x, y);
      EraseIn(y, x);
      ClearVisitedBits(deltaf);
    }

    /** Records an edge that is not there yet, then adjusts the ranks to it or takes it back. */
    method InsertNew(x: int, y: int) returns (inserted: bool)
      requires Tied() && Ein == E && marks == {} && Permutation(ranks) && Ascending(E, ranks)
      requires 0 <= x < |nodes| && 0 <= y < |nodes| && x != y && (x, y) !in E
      modifies this`deltab, this`deltaf, this`stack, this`list, this`merged
      modifies this`E, this`Ein, this`marks, this`ranks
      modifies nodes`visited, nodes`rank, nodes`outs, nodes`ins
      ensures Tied() && Ein == E && marks == {} && Permutation(ranks) && Ascending(E, ranks)
      ensures inserted <==> !Reaches(old(E), y, x)
      ensures E == if inserted then old(E) + {(x, y)} else old(E)
      ensures !inserted ==> ranks == old(ranks)
      ensures RanksMoveWithin(old(ranks), ranks, x, y)
    {
      ghost var G := E;
      InsertOut(x, y);
      InsertIn(y, x);
      if nodes[x].rank <= nodes[y].rank {
        // the new edge is consistent with the existing ranks
        ForwardInsert(G, ranks, x, y);
        return true;
      }
      inserted := Adjust(x, y, G);
      if !inserted {
        Undo(x, y);
      }
    }

    /** Inserts the edge unless it would close a cycle. */
    method InsertEdge(x: int, y: int) returns (inserted: bool)
      requires Valid() && Live(x) && Live(y)
      modifies Repr
      ensures Valid() && SameNodes()
      ensures inserted <==> !Reaches(old(E), y, x)
      ensures E == if inserted then old(E) + {(x, y)} else old(E)
      ensures !inserted ==> ranks == old(ranks)
      ensures RanksMoveWithin(old(ranks), ranks, x, y)
    {
      hide Permutation, Ascending, Reaches, NoDup, InRange;
      if x == y {
        ReachesSelf(E, x);
        return false;
      }
      if y in nodes[x].outs {
        ValidIsAcyclic();
        return true;  // the edge already exists
      }
      inserted := InsertNew(x, y);
    }

    /** Removes the edge if it is there; a valid ranking stays valid. */
    method RemoveEdge(x: int, y: int)
      requires Valid() && Live(x) && Live(y)
      modifies Repr
      ensures Valid() && SameNodes()
      ensures E == old(E) - {(x, y)} && ranks == old(ranks)
    {
      EraseOut(x, y);
      EraseIn(y, x);
    }

    // ---------- nodes ----------

    /** A fresh node gets the next rank; a reused one keeps the rank it had. */
    method NewNode() returns (v: int)
      requires Valid()
      modifies Repr
      ensures Valid() && fresh(Repr - old(Repr)) && old(Repr) <= Repr
      ensures E == old(E) && old(ranks) <= ranks
      ensures !old(Live(v)) && forall u :: Live(u) <==> old(Live(u)) || u == v
      ensures old(freeNodes) == [] ==> v == |old(nodes)| && |nodes| == |old(nodes)| + 1 && freeNodes == []
      ensures old(freeNodes) == [] ==> ranks == old(ranks) + [v]
      ensures old(freeNodes) != [] ==> old(freeNodes) == freeNodes + [v] && nodes == old(nodes) && ranks == old(ranks)
      ensures forall x, y :: (x, y) in E ==> x != v && y != v
    {
      if freeNodes == [] {
        v := Allocate();
      } else {
        v := freeNodes[|freeNodes| - 1];
        freeNodes := freeNodes[..|freeNodes| - 1];
      }
    }

    method Allocate() returns (v: int)
      requires Valid()
      modifies this`nodes, this`ranks, this`Repr
      ensures Valid() && fresh(Repr - old(Repr)) && old(Repr) <= Repr
      ensures v == |old(nodes)| && |nodes| == |old(nodes)| + 1 && ranks == old(ranks) + [v]
    {
      var n := new Node();
      v := |nodes|;
      n.rank := v;
      nodes := nodes + [n];
      ranks := ranks + [v];
      Repr := Repr + {n};
    }

    /** Takes `v` out of the in sets of the nodes `ys`. */
    method EraseFromIns(ys: set<int>, v: int)
      requires Tied() && forall y :: y in ys ==> 0 <= y < |nodes|
      modifies this`Ein, nodes`ins
      ensures Tied()
      ensures forall x, y :: (x, y) in Ein <==> (x, y) in old(Ein) && !(x == v && y in ys)
    {
      var rest := ys;
      while rest != {}
        invariant rest <= ys && Tied()
        invariant forall x, y :: (x, y) in Ein <==> (x, y) in old(Ein) && !(x == v && y in ys && y !in rest)
      {
        ghost var some := SomeMember(rest);
        var y :| y in rest;
        rest := rest - {y};
        EraseIn(y, v);
      }
    }

    /** Takes `v` out of the out sets of the nodes `ys`. */
    method EraseFromOuts(ys: set<int>, v: int)
      requires Tied() && forall y :: y in ys ==> 0 <= y < |nodes|
      modifies this`E, nodes`outs
      ensures Tied()
      ensures forall x, y :: (x, y) in E <==> (x, y) in old(E) && !(x in ys && y == v)
    {
      var rest := ys;
      while rest != {}
        invariant rest <= ys && Tied()
        invariant forall x, y :: (x, y) in E <==> (x, y) in old(E) && !(x in ys && x !in rest && y == v)
      {
        ghost var some := SomeMember(rest);
        var y :| y in rest;
        rest := rest - {y};
        EraseOut(y, v);
      }
    }

    /** Empties both sets of `v`. */
    method ClearSets(v: int)
      requires Tied() && 0 <= v < |nodes|
      modifies this`E, this`Ein, {nodes[v]}`ins, {nodes[v]}`outs
      ensures Tied()
      ensures forall x, y :: (x, y) in E <==> (x, y) in old(E) && x != v
      ensures forall x, y :: (x, y) in Ein <==> (x, y) in old(Ein) && y != v
    {
      nodes[v].ins := {};
      nodes[v].outs := {};
      E := set e | e in E && e.0 != v;
      Ein := set e | e in Ein && e.1 != v;
    }

    /** Removes the node with all its edges and puts it on the free list. */
    method RemoveNode(node: int)
      requires Valid() && Live(node)
      modifies Repr
      ensures Valid() && nodes == old(nodes) && Repr == old(Repr) && ranks == old(ranks)
      ensures E == Without(old(E), node) && freeNodes == old(freeNodes) + [node]
    {
      hide Permutation;
      EraseFromIns(nodes[node].outs, node);
      EraseFromOuts(nodes[node].ins, node);
      ClearSets(node);
      freeNodes := freeNodes + [node];
      SameEdges(E, Without(old(E), node));
      SameEdges(Ein, E);
    }

    // ---------- reachability ----------

    /** Search limited to the rank of y; leaves edges and ranks as they were. */
    method IsReachableNonConst(x: int, y: int) returns (r: bool)
      requires Valid() && Live(x) && Live(y)
      modifies Repr
      ensures Valid() && SameNodes() && E == old(E) && ranks == old(ranks)
      ensures r <==> Reaches(E, x, y)
    {
      if x == y {
        ReachesSelf(E, x);
        return true;
      }
      if nodes[x].rank >= nodes[y].rank {
        // x comes after y in the topological order
        NotReachedUphill(E, ranks, x, y);
        return false;
      }
      r := SearchUpTo(x, y);
    }

    method SearchUpTo(x: int, y: int) returns (r: bool)
      requires Tied() && marks == {} && Permutation(ranks) && Ascending(E, ranks)
      requires 0 <= x < |nodes| && 0 <= y < |nodes| && ranks[x] < ranks[y]
      modifies this`deltaf, this`stack, this`marks, nodes`visited
      ensures Tied() && marks == {}
      ensures r <==> Reaches(E, x, y)
    {
      SearchScope(E, ranks, x, y);
      var ok := ForwardDFS(x, nodes[y].rank, ReachedFrom(E, x, |ranks|));
      if ok {
        BoundedSearchComplete(E, ranks, marks, x, y);
      } else {
        SearchFound(E, ranks, marks, x, y);
      }
      forall k | 0 <= k < |deltaf| ensures 0 <= deltaf[k] < |nodes| { assert deltaf[k] in Elems(deltaf); }
      ClearVisitedBits(deltaf);
      r := !ok;
    }

    /** Predicts ContractEdge without changing edges or ranks. */
    method CanContractEdge(a: int, b: int) returns (r: bool)
      requires Valid() && Live(a) && Live(b) && (a, b) in E
      modifies Repr
      ensures Valid() && SameNodes() && E == old(E) && ranks == old(ranks)
      ensures r <==> !Reaches(E - {(a, b)}, a, b)
    {
      RestoresEdge(E, ranks, a, b);
      RemoveEdge(a, b);
      var reachable := IsReachableNonConst(a, b);
      // restores the graph to its original state
      var restored := InsertEdge(a, b);
      WithinEmptyRange(old(ranks), ranks, a, b);
      r := !reachable;
    }

    /** Moves the sets of `v` out, leaving them empty, and takes `v` out of its neighbours' sets. */
    method Detach(v: int) returns (outs: set<int>, ins: set<int>)
      requires Valid() && Live(v)
      modifies Repr
      ensures Valid() && nodes == old(nodes) && Repr == old(Repr) && ranks == old(ranks)
      ensures E == Without(old(E), v) && freeNodes == old(freeNodes) + [v]
      ensures forall y :: y in outs <==> (v, y) in old(E)
      ensures forall y :: y in ins <==> (y, v) in old(E)
    {
      outs, ins := nodes[v].outs, nodes[v].ins;
      MoveOut(v, outs, ins);
      freeNodes := freeNodes + [v];
    }

    method MoveOut(v: int, outs: set<int>, ins: set<int>)
      requires Tied() && Ein == E && 0 <= v < |nodes|
      requires forall y :: y in outs <==> (v, y) in E
      requires forall y :: y in ins <==> (y, v) in E
      modifies this`E, this`Ein, nodes`ins, nodes`outs
      ensures Tied() && Ein == E && E == Without(old(E), v)
    {
      ClearSets(v);
      EraseFromIns(outs, v);
      EraseFromOuts(ins, v);
      SameEdges(E, Without(old(E), v));
      SameEdges(Ein, E);
    }

    /** Inserts a -> y for every y; none of the insertions fails while all edges belong to the acyclic Q. */
    method InsertOuts(a: int, ys: set<int>, ghost Q: Edges)
      requires Valid() && Live(a) && Acyclic(Q) && E <= Q
      requires forall y :: y in ys ==> Live(y) && (a, y) in Q
      modifies Repr
      ensures Valid() && SameNodes() && E <= Q
      ensures forall x, y :: (x, y) in E <==> (x, y) in old(E) || (x == a && y in ys)
    {
      var rest := ys;
      while rest != {}
        invariant rest <= ys && Valid() && SameNodes() && E <= Q
        invariant forall x, y :: (x, y) in E <==> (x, y) in old(E) || (x == a && y in ys && y !in rest)
      {
        ghost var some := SomeMember(rest);
        var y :| y in rest;
        rest := rest - {y};
        SubgraphInsertSafe(E, Q, a, y);
        var inserted := InsertEdge(a, y);
        assert inserted;
      }
    }

    method InsertIns(a: int, ys: set<int>, ghost Q: Edges)
      requires Valid() && Live(a) && Acyclic(Q) && E <= Q
      requires forall y :: y in ys ==> Live(y) && (y, a) in Q
      modifies Repr
      ensures Valid() && SameNodes() && E <= Q
      ensures forall x, y :: (x, y) in E <==> (x, y) in old(E) || (x in ys && y == a)
    {
      var rest := ys;
      while rest != {}
        invariant rest <= ys && Valid() && SameNodes() && E <= Q
        invariant forall x, y :: (x, y) in E <==> (x, y) in old(E) || (x in ys && x !in rest && y == a)
      {
        ghost var some := SomeMember(rest);
        var y :| y in rest;
        rest := rest - {y};
        SubgraphInsertSafe(E, Q, y, a);
        var inserted := InsertEdge(y, a);
        assert inserted;
      }
    }

    /** Merges b into a unless that would close a cycle. */
    method ContractEdge(a: int, b: int) returns (merged: bool)
      requires Valid() && Live(a) && Live(b) && (a, b) in E
      modifies Repr
      ensures Valid() && nodes == old(nodes) && Repr == old(Repr)
      ensures merged <==> !Reaches(old(E) - {(a, b)}, a, b)
      ensures merged ==> E == Contract(old(E), a, b) && freeNodes == old(freeNodes) + [b]
      ensures !merged ==> E == old(E) && ranks == old(ranks) && freeNodes == old(freeNodes)
    {
      RestoresEdge(E, ranks, a, b);
      ValidIsAcyclic();
      RemoveEdge(a, b);
      var reachable := IsReachableNonConst(a, b);
      if reachable {
        // restores the graph to its original state
        var restored := InsertEdge(a, b);
        WithinEmptyRange(old(ranks), ranks, a, b);
        return false;
      }
      ghost var Q := Contract(old(E), a, b);
      ContractAcyclic(old(E), a, b);
      MergeInto(a, b, old(E));
      return true;
    }

    /** The merging half of ContractEdge, once the edge itself is out and known to be the only path. */
    method MergeInto(a: int, b: int, ghost F: Edges)
      requires Valid() && Live(a) && Live(b) && a != b
      requires Acyclic(F) && (a, b) in F && E == F - {(a, b)} && Acyclic(Contract(F, a, b))
      modifies Repr
      ensures Valid() && nodes == old(nodes) && Repr == old(Repr)
      ensures E == Contract(F, a, b) && freeNodes == old(freeNodes) + [b]
    {
      ghost var Q := Contract(F, a, b);
      forall x, y ensures (x, y) in Q <==>
          || (x != b && y != b && (x, y) in E) || (x == a && y != b && (b, y) in E) || (y == a && x != b && (x, b) in E)
      {
        ContractEdgesOf(F, a, b, x, y);
      }
      ghost var before := E;
      var outs, ins := Detach(b);
      InsertOuts(a, outs, Q);
      InsertIns(a, ins, Q);
      SameEdges(E, Q);
    }

    /** Pushes the successors of `n` not met before, and meets them. */
    method PushUnseen(n: int, before: set<int>, ghost x: int, ghost route: seq<int>, ghost all: set<int>)
      returns (seen: set<int>)
      requires OutsTied() && 0 <= n < |nodes| && before <= all
      requires forall v :: 0 <= v < |nodes| ==> v in all
      requires Traces(E, x, stack, route) && route != [] && route[|route| - 1] == n
      modifies this`stack
      ensures OutsTied() && seen <= all && Traces(E, x, stack, route)
      ensures forall w :: w in seen <==> w in before || (n, w) in E
      ensures Elems(stack) == Elems(old(stack)) + (seen - before)
      ensures 3 * |all - seen| + 2 * |stack| <= 3 * |all - before| + 2 * |old(stack)|
    {
      seen := before;
      var rest := nodes[n].outs;
      while rest != {}
        invariant OutsTied() && rest <= nodes[n].outs
        invariant before <= seen <= all
        invariant Traces(E, x, stack, route)
        invariant forall w :: w in seen <==> w in before || ((n, w) in E && w !in rest)
        invariant Elems(stack) == Elems(old(stack)) + (seen - before)
        invariant 3 * |all - seen| + 2 * |stack| <= 3 * |all - before| + 2 * |old(stack)|
      {
        ghost var some := SomeMember(rest);
        var w :| w in rest;
        rest := rest - {w};
        assert (n, w) in E;
        if w !in seen {
          TracePush(E, x, stack, route, w);
          ElemsAppend(stack, w);
          MeetOne(all, seen, w);
          seen := seen + {w};
          stack := stack + [w];
        }
      }
    }

    /** What the path search keeps. */
    ghost predicate Walking(x: int, y: int, route: seq<int>, seen: set<int>, entered: set<int>, all: set<int>)
      reads this`E, this`stack
    {
      && seen <= all
      && Traces(E, x, stack, route) && Walked(E, x, route)
      && Explored(E, x, y, seen, entered, Elems(stack))
    }

    /** Leaves the last node of the walk: a marker is on top of the stack. */
    method LeaveNode(ghost x: int, ghost y: int, ghost route: seq<int>, ghost seen: set<int>, ghost entered: set<int>,
                     ghost all: set<int>)
      requires Walking(x, y, route, seen, entered, all) && stack != [] && stack[|stack| - 1] < 0
      requires 0 <= x && (forall v :: v in all ==> 0 <= v)
      modifies this`stack
      ensures route != [] && Walking(x, y, route[..|route| - 1], seen, entered, all)
      ensures |stack| == |old(stack)| - 1 && |route| <= |old(stack)|
    {
      TraceLength(E, x, stack, route);
      PopLast(stack);
      stack := stack[..|stack| - 1];
      WalkBack(E, x, route);
    }

    /** Enters the node on top of the stack: a marker replaces it, and the walk goes on to it. */
    method EnterNode(ghost x: int, ghost y: int, ghost route: seq<int>, ghost seen: set<int>, ghost entered: set<int>,
                     ghost all: set<int>)
      returns (n: int)
      requires OutsTied() && 0 <= x < |nodes|
      requires Walking(x, y, route, seen, entered, all) && stack != [] && stack[|stack| - 1] >= 0
      modifies this`stack
      ensures OutsTied() && 0 <= n < |nodes| && n == old(stack)[|old(stack)| - 1] && |stack| == |old(stack)|
      ensures |route| < |stack|
      ensures Traces(E, x, stack, route + [n]) && Walked(E, x, route + [n])
      ensures Explored(E, x, y, seen, entered, Elems(stack) + {n})
    {
      TraceLength(E, x, stack, route);
      PopLast(stack);
      n := stack[|stack| - 1];
      stack := stack[..|stack| - 1];
      if route != [] {
        ghost var u := route[|route| - 1];
        assert (u, n) in E;
      }
      WalkOn(E, x, route, n);
      TraceEnter(E, x, stack, route, n);
      ElemsAppend(stack, -1);
      stack := stack + [-1];
    }

    /** Pushes what the node just entered leads to; the search goes on from there. */
    method Expand(n: int, before: set<int>, ghost x: int, ghost y: int, ghost route: seq<int>, ghost entered: set<int>,
                  ghost all: set<int>)
      returns (seen: set<int>)
      requires OutsTied() && 0 <= n < |nodes| && n != y
      requires (forall v :: 0 <= v < |nodes| ==> v in all) && before <= all
      requires route != [] && route[|route| - 1] == n && Traces(E, x, stack, route) && Walked(E, x, route)
      requires Explored(E, x, y, before, entered, Elems(stack) + {n})
      modifies this`stack
      ensures OutsTied() && Walking(x, y, route, seen, entered + {n}, all)
      ensures 3 * |all - seen| + 2 * |stack| <= 3 * |all - before| + 2 * |old(stack)|
    {
      seen := PushUnseen(n, before, x, route, all);
    }

    /** The array holds as much of the route as fits. */
    ghost predicate Recorded(path: array?<int>, maxPathLen: nat, route: seq<int>)
      reads path
    {
      && (maxPathLen > 0 ==> path != null && maxPathLen <= path.Length)
      && (forall i :: 0 <= i < |route| && i < maxPathLen ==> path[i] == route[i])
    }

    method Record(path: array?<int>, maxPathLen: nat, ghost route: seq<int>, len: nat, n: int)
      requires Recorded(path, maxPathLen, route) && len == |route|
      modifies path
      ensures Recorded(path, maxPathLen, route + [n])
    {
      if len < maxPathLen {
        path[len] := n;
      }
    }

    /** The search itself, which needs no more than the out sets. */
    method Walk(x: int, y: int, maxPathLen: nat, path: array?<int>) returns (len: int, ghost route: seq<int>)
      requires OutsTied()
      requires 0 <= x < |nodes| && 0 <= y < |nodes|
      requires maxPathLen > 0 ==> path != null && maxPathLen <= path.Length
      modifies this`stack, path
      ensures len >= 0 && len == |route|
      ensures len > 0 ==> Walked(E, x, route) && route[len - 1] == y
      ensures len == 0 ==> !Reaches(E, x, y)
      ensures Recorded(path, maxPathLen, route)
    {
      hide Walked, Reaches, OutsTied, Traces, Explored, Below;
      route := [];
      len := 0;
      var seen: set<int> := {};
      ghost var entered: set<int> := {};
      ghost var all := Below(|nodes|);
      stack := [x];
      StartWalk(E, x, y);
      while stack != []
        invariant OutsTied() && len == |route|
        invariant Walking(x, y, route, seen, entered, all)
        invariant Recorded(path, maxPathLen, route)
        decreases 3 * |all - seen| + 2 * |stack| - |route|
      {
        if stack[|stack| - 1] < 0 {
          LeaveNode(x, y, route, seen, entered, all);
          route := route[..|route| - 1];
          len := len - 1;
          continue;
        }
        var n := EnterNode(x, y, route, seen, entered, all);
        Record(path, maxPathLen, route, len, n);
        len := len + 1;
        route := route + [n];
        if n == y {
          return;
        }
        seen := Expand(n, seen, x, y, route, entered, all);
        entered := entered + {n};
      }
      SameMembers(Elems(stack), {});
      NothingLeft(E, x, y, seen, entered);
      route := [];
      len := 0;
    }

    /**
     Depth-first search from x that keeps the path to the node it is in; a marker on the stack
     means that a node is left. The array receives as much of the path as fits.
     */
    method FindPath(x: int, y: int, maxPathLen: nat, path: array?<int>) returns (len: int, ghost route: seq<int>)
      requires Valid() && Live(x) && Live(y)
      requires maxPathLen > 0 ==> path != null && maxPathLen <= path.Length
      modifies this`stack, path
      ensures Valid()
      ensures len > 0 <==> Reaches(E, x, y)
      ensures len >= 0 && len == |route|
      ensures len > 0 ==> PathFromTo(E, x, y, route) && NoDup(route) && len <= |nodes|
      ensures Recorded(path, maxPathLen, route)
    {
      len, route := Walk(x, y, maxPathLen, path);
      if len > 0 {
        WalkFinished(E, ranks, x, route);
      }
    }

    method IsReachable(x: int, y: int) returns (r: bool)
      requires Valid() && Live(x) && Live(y)
      modifies this`stack
      ensures Valid() && (r <==> Reaches(E, x, y))
    {
      var len, _ := FindPath(x, y, 0, null);
      r := len > 0;
    }

    method Successors(node: int) returns (r: set<int>)
      requires Valid() && Live(node)
      ensures forall y :: y in r <==> (node, y) in E
    {
      r := nodes[node].outs;
      assert forall y :: y in nodes[node].outs <==> (node, y) in E;
    }

    method Predecessors(node: int) returns (r: set<int>)
      requires Valid() && Live(node)
      ensures forall y :: y in r <==> (y, node) in E
    {
      r := nodes[node].ins;
      assert forall y :: y in nodes[node].ins <==> (y, node) in E;
    }

    /** Whether every edge out of x goes up in rank. */
    method EdgesClimb(x: int) returns (ok: bool)
      requires Tied() && 0 <= x < |nodes|
      ensures ok <==> forall w :: (x, w) in E ==> ranks[x] < ranks[w]
    {
      var rest := nodes[x].outs;
      while rest != {}
        invariant rest <= nodes[x].outs
        invariant forall w :: (x, w) in E && w !in rest ==> ranks[x] < ranks[w]
      {
        ghost var some := SomeMember(rest);
        var y :| y in rest;
        rest := rest - {y};
        assert (x, y) in E;
        if nodes[x].rank >= nodes[y].rank {
          return false;
        }
      }
      return true;
    }

    /**
     The run-time self-check accepts exactly the unmarked, distinctly and consistently ranked states;
     so it accepts every state that is Valid.
     */
    method CheckInvariants() returns (ok: bool)
      requires Tied()
      ensures ok <==> marks == {} && NoDup(ranks) && Ascending(E, ranks)
      ensures Valid() ==> ok
    {
      var seen: set<int> := {};
      for x := 0 to |nodes|
        invariant forall k :: 0 <= k < x ==> k !in marks
        invariant forall r :: r in seen <==> exists k :: 0 <= k < x && ranks[k] == r
        invariant forall i, j :: 0 <= i < j < x ==> ranks[i] != ranks[j]
        invariant forall u, w :: (u, w) in E && u < x ==> ranks[u] < ranks[w]
      {
        if nodes[x].visited {
          return false;
        }
        if nodes[x].rank in seen {
          return false;
        }
        seen := seen + {nodes[x].rank};
        var climbs := EdgesClimb(x);
        if !climbs {
          return false;
        }
      }
      if marks != {} {
        ghost var m := SomeMember(marks);
      }
      return true;
    }
  }
}
