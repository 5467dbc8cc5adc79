/**
 The pure half of the dynamic topological order of Pearce and Kelly: how the ranks of the nodes
 found by the two bounded searches are redistributed, and why every edge then goes up in rank.
 */
module PearceKelly {
  import opened Digraph

  /** The ranks in use are exactly 0..n-1, each used once. */
  ghost predicate Permutation(ranks: seq<int>) {
    && (forall i :: 0 <= i < |ranks| ==> 0 <= ranks[i] < |ranks|)
    && (forall i, j :: 0 <= i < j < |ranks| ==> ranks[i] != ranks[j])
  }

  lemma DistinctRanks(ranks: seq<int>, i: int, j: int)
    requires Permutation(ranks) && 0 <= i < |ranks| && 0 <= j < |ranks| && i != j
    ensures ranks[i] != ranks[j]
  {
  }

  predicate InRange(s: seq<int>, n: int) {
    forall k :: 0 <= k < |s| ==> 0 <= s[k] < n
  }

  predicate NoDup(s: seq<int>) {
    forall i, j :: 0 <= i < j < |s| ==> s[i] != s[j]
  }

  predicate StrictlySorted(s: seq<int>) {
    forall i, j :: 0 <= i < j < |s| ==> s[i] < s[j]
  }

  /** The ranks of a list of nodes. */
  function RanksOf(ranks: seq<int>, s: seq<int>): (r: seq<int>)
    requires InRange(s, |ranks|)
    ensures |r| == |s|
    ensures forall k :: 0 <= k < |s| ==> r[k] == ranks[s[k]]
  {
    seq(|s|, k requires 0 <= k < |s| => ranks[s[k]])
  }

  // ---------- the library sort and merge ----------

  function InsertByRank(ranks: seq<int>, v: int, s: seq<int>): (r: seq<int>)
    requires 0 <= v < |ranks| && InRange(s, |ranks|)
    ensures multiset(r) == multiset(s) + multiset{v}
    ensures InRange(r, |ranks|)
  {
    if s == [] then [v]
    else if ranks[v] <= ranks[s[0]] then [v] + s
    else
      assert s == [s[0]] + s[1..];
      [s[0]] + InsertByRank(ranks, v, s[1..])
  }

  function SortByRank(ranks: seq<int>, s: seq<int>): (r: seq<int>)
    requires InRange(s, |ranks|)
    ensures multiset(r) == multiset(s) && |r| == |s|
    ensures InRange(r, |ranks|)
  {
    if s == [] then [] else
      assert s == [s[0]] + s[1..];
      var r := InsertByRank(ranks, s[0], SortByRank(ranks, s[1..]));
      assert |multiset(r)| == |r| && |multiset(s)| == |s|;
      r
  }

  lemma SameElements(s: seq<int>, t: seq<int>, v: int)
    requires multiset(s) == multiset(t)
    ensures v in s <==> v in t
  {
    assert v in s <==> v in multiset(s);
    assert v in t <==> v in multiset(t);
  }

  /** `s` lists nodes in increasing order of rank. */
  ghost predicate RankSorted(ranks: seq<int>, s: seq<int>)
    requires InRange(s, |ranks|)
  {
    forall i, j :: 0 <= i < j < |s| ==> ranks[s[i]] < ranks[s[j]]
  }

  lemma InsertMember(ranks: seq<int>, v: int, s: seq<int>, k: int)
    requires 0 <= v < |ranks| && InRange(s, |ranks|)
    requires 0 <= k < |InsertByRank(ranks, v, s)|
    ensures InsertByRank(ranks, v, s)[k] == v || InsertByRank(ranks, v, s)[k] in s
  {
    var r := InsertByRank(ranks, v, s);
    assert r[k] in multiset(r);
  }

  lemma {:induction false} InsertKeepsSorted(ranks: seq<int>, v: int, s: seq<int>)
    requires 0 <= v < |ranks| && InRange(s, |ranks|) && RankSorted(ranks, s)
    requires forall k :: 0 <= k < |s| ==> ranks[s[k]] != ranks[v]
    ensures RankSorted(ranks, InsertByRank(ranks, v, s))
  {
    if s != [] && ranks[v] > ranks[s[0]] {
      var u := InsertByRank(ranks, v, s[1..]);
      InsertKeepsSorted(ranks, v, s[1..]);
      forall k | 0 <= k < |u|
        ensures ranks[u[k]] > ranks[s[0]]
      {
        InsertMember(ranks, v, s[1..], k);
      }
    }
  }

  lemma {:induction false} SortSorts(ranks: seq<int>, s: seq<int>)
    requires InRange(s, |ranks|) && NoDup(s) && Permutation(ranks)
    ensures RankSorted(ranks, SortByRank(ranks, s))
  {
    if s != [] {
      var t := SortByRank(ranks, s[1..]);
      SortSorts(ranks, s[1..]);
      forall k | 0 <= k < |t|
        ensures ranks[t[k]] != ranks[s[0]]
      {
        SameElements(t, s[1..], t[k]);
        var m :| 0 <= m < |s[1..]| && s[1..][m] == t[k];
        assert s[m + 1] != s[0];
      }
      InsertKeepsSorted(ranks, s[0], t);
    }
  }

  lemma SortedRanks(ranks: seq<int>, s: seq<int>)
    requires InRange(s, |ranks|) && NoDup(s) && Permutation(ranks)
    ensures StrictlySorted(RanksOf(ranks, SortByRank(ranks, s)))
  {
    SortSorts(ranks, s);
  }

  /** std::merge: elements of the first list win ties. */
  function Merge(b: seq<int>, f: seq<int>): (m: seq<int>)
    ensures |m| == |b| + |f|
    ensures multiset(m) == multiset(b) + multiset(f)
  {
    if b == [] then f
    else if f == [] then b
    else if f[0] < b[0] then
      assert f == [f[0]] + f[1..];
      [f[0]] + Merge(b, f[1..])
    else
      assert b == [b[0]] + b[1..];
      [b[0]] + Merge(b[1..], f)
  }

  lemma MergeElement(b: seq<int>, f: seq<int>, k: int) returns (inFirst: bool, i: int)
    requires 0 <= k < |b| + |f|
    ensures inFirst ==> 0 <= i < |b| && Merge(b, f)[k] == b[i]
    ensures !inFirst ==> 0 <= i < |f| && Merge(b, f)[k] == f[i]
  {
    var m := Merge(b, f);
    assert m[k] in multiset(m);
    if m[k] in b {
      inFirst := true;
      i :| 0 <= i < |b| && b[i] == m[k];
    } else {
      assert m[k] in f;
      inFirst := false;
      i :| 0 <= i < |f| && f[i] == m[k];
    }
  }

  lemma MergeAbove(b: seq<int>, f: seq<int>, low: int)
    requires (forall i :: 0 <= i < |b| ==> low < b[i]) && forall j :: 0 <= j < |f| ==> low < f[j]
    ensures forall k :: 0 <= k < |b| + |f| ==> low < Merge(b, f)[k]
  {
    hide Merge;
    forall k | 0 <= k < |b| + |f| ensures low < Merge(b, f)[k] {
      var inFirst, i := MergeElement(b, f, k);
    }
  }

  lemma MergeUnfolds(b: seq<int>, f: seq<int>)
    requires b != [] && f != []
    ensures Merge(b, f) == if f[0] < b[0] then [f[0]] + Merge(b, f[1..]) else [b[0]] + Merge(b[1..], f)
  {
  }

  lemma Shifted(head: int, m: seq<int>, k: int)
    requires 0 < k <= |m|
    ensures ([head] + m)[k] == m[k - 1]
  {
  }

  lemma SortedAfter(low: int, m: seq<int>)
    requires StrictlySorted(m) && forall k :: 0 <= k < |m| ==> low < m[k]
    ensures StrictlySorted([low] + m)
  {
  }

  lemma {:induction false} MergeSorted(b: seq<int>, f: seq<int>)
    requires StrictlySorted(b) && StrictlySorted(f)
    requires forall i, j :: 0 <= i < |b| && 0 <= j < |f| ==> b[i] != f[j]
    ensures StrictlySorted(Merge(b, f))
  {
    if b != [] && f != [] {
      hide Merge;
      var b', f' := if f[0] < b[0] then b else b[1..], if f[0] < b[0] then f[1..] else f;
      var head := if f[0] < b[0] then f[0] else b[0];
      MergeSorted(b', f');
      MergeUnfolds(b, f);
      MergeAbove(b', f', head);
      SortedAfter(head, Merge(b', f'));
    }
  }

  /** Merging in more elements moves the first list down ... */
  lemma {:induction false} MergeFirstDown(b: seq<int>, f: seq<int>, i: int)
    requires StrictlySorted(b) && 0 <= i < |b|
    ensures Merge(b, f)[i] <= b[i]
  {
    if f != [] && f[0] < b[0] {
      if i > 0 {
        MergeFirstDown(b, f[1..], i - 1);
      }
    } else if f != [] && i > 0 {
      MergeFirstDown(b[1..], f, i - 1);
    }
  }

  lemma SortedTail(s: seq<int>)
    requires StrictlySorted(s) && s != []
    ensures StrictlySorted(s[1..])
  {
  }

  lemma HeadBelowMerge(b: seq<int>, f: seq<int>)
    requires StrictlySorted(b) && StrictlySorted(f) && b != [] && f != [] && f[0] < b[0]
    ensures f[0] <= Merge(b, f[1..])[|b| - 1]
  {
    hide Merge;
    MergeAbove(b, f[1..], f[0]);
  }

  /** ... and the second list up. */
  lemma {:induction false} MergeSecondUp(b: seq<int>, f: seq<int>, j: int, k: int)
    requires StrictlySorted(b) && StrictlySorted(f) && 0 <= j < |f| && k == |b| + j
    ensures f[j] <= Merge(b, f)[k]
  {
    if b != [] {
      hide Merge, StrictlySorted;
      MergeUnfolds(b, f);
      if f[0] >= b[0] {
        SortedTail(b);
        MergeSecondUp(b[1..], f, j, k - 1);
        Shifted(b[0], Merge(b[1..], f), k);
      } else if j > 0 {
        SortedTail(f);
        MergeSecondUp(b, f[1..], j - 1, k - 1);
        Shifted(f[0], Merge(b, f[1..]), k);
      } else {
        HeadBelowMerge(b, f);
        Shifted(f[0], Merge(b, f[1..]), k);
      }
    }
  }

  // ---------- the reordering step ----------

  /** The backward nodes in rank order, then the forward nodes in rank order. */
  function Collected(ranks: seq<int>, back: seq<int>, fwd: seq<int>): (list: seq<int>)
    requires InRange(back, |ranks|) && InRange(fwd, |ranks|)
    ensures |list| == |back| + |fwd| && InRange(list, |ranks|)
  {
    SortByRank(ranks, back) + SortByRank(ranks, fwd)
  }

  /** The ranks both lists of nodes held, in increasing order. */
  function Pool(ranks: seq<int>, back: seq<int>, fwd: seq<int>): (pool: seq<int>)
    requires InRange(back, |ranks|) && InRange(fwd, |ranks|)
    ensures |pool| == |back| + |fwd|
  {
    Merge(RanksOf(ranks, SortByRank(ranks, back)), RanksOf(ranks, SortByRank(ranks, fwd)))
  }

  /** `after` hands the pooled ranks out to the collected nodes and changes no other rank. */
  ghost predicate Reordered(ranks: seq<int>, after: seq<int>, back: seq<int>, fwd: seq<int>)
    requires InRange(back, |ranks|) && InRange(fwd, |ranks|)
  {
    var list, pool := Collected(ranks, back, fwd), Pool(ranks, back, fwd);
    && |after| == |ranks|
    && (forall k :: 0 <= k < |list| ==> after[list[k]] == pool[k])
    && (forall v :: 0 <= v < |ranks| && v !in list ==> after[v] == ranks[v])
  }

  /** The situation in which the two searches leave the ranks. */
  ghost predicate Searched(ranks: seq<int>, back: seq<int>, fwd: seq<int>) {
    && Permutation(ranks)
    && InRange(back, |ranks|) && InRange(fwd, |ranks|)
    && NoDup(back) && NoDup(fwd)
    && (forall v :: v in back ==> v !in fwd)
  }

  /** Where a collected node stands and what it receives. */
  lemma CollectedAt(ranks: seq<int>, back: seq<int>, fwd: seq<int>, v: int) returns (k: int)
    requires Searched(ranks, back, fwd) && (v in back || v in fwd)
    ensures 0 <= k < |back| + |fwd| && Collected(ranks, back, fwd)[k] == v
    ensures v in back <==> k < |back|
  {
    var sb, sf := SortByRank(ranks, back), SortByRank(ranks, fwd);
    SameElements(sb, back, v);
    SameElements(sf, fwd, v);
    if v in back {
      k :| 0 <= k < |sb| && sb[k] == v;
    } else {
      var j :| 0 <= j < |sf| && sf[j] == v;
      k := |sb| + j;
    }
  }

  lemma CollectedMembers(ranks: seq<int>, back: seq<int>, fwd: seq<int>, v: int)
    requires Searched(ranks, back, fwd)
    ensures v in Collected(ranks, back, fwd) <==> v in back || v in fwd
  {
    SameElements(SortByRank(ranks, back), back, v);
    SameElements(SortByRank(ranks, fwd), fwd, v);
  }

  lemma CollectedNoDup(ranks: seq<int>, back: seq<int>, fwd: seq<int>)
    requires Searched(ranks, back, fwd)
    ensures NoDup(Collected(ranks, back, fwd))
  {
    var sb, sf := SortByRank(ranks, back), SortByRank(ranks, fwd);
    SortSorts(ranks, back);
    SortSorts(ranks, fwd);
    forall i, j | 0 <= i < |sb| && 0 <= j < |sf|
      ensures sb[i] != sf[j]
    {
      SameElements(sb, back, sb[i]);
      SameElements(sf, fwd, sf[j]);
    }
  }

  lemma PoolSorted(ranks: seq<int>, back: seq<int>, fwd: seq<int>)
    requires Searched(ranks, back, fwd)
    ensures StrictlySorted(Pool(ranks, back, fwd))
  {
    var sb, sf := SortByRank(ranks, back), SortByRank(ranks, fwd);
    SortedRanks(ranks, back);
    SortedRanks(ranks, fwd);
    forall i, j | 0 <= i < |sb| && 0 <= j < |sf|
      ensures ranks[sb[i]] != ranks[sf[j]]
    {
      SameElements(sb, back, sb[i]);
      SameElements(sf, fwd, sf[j]);
      assert sb[i] != sf[j];
    }
    MergeSorted(RanksOf(ranks, sb), RanksOf(ranks, sf));
  }

  lemma PoolAscends(ranks: seq<int>, back: seq<int>, fwd: seq<int>, i: int, j: int)
    requires Searched(ranks, back, fwd) && 0 <= i < j < |back| + |fwd|
    ensures Pool(ranks, back, fwd)[i] < Pool(ranks, back, fwd)[j]
  {
    PoolSorted(ranks, back, fwd);
  }

  /** Every pooled rank is the old rank of a collected node. */
  lemma PoolElement(ranks: seq<int>, back: seq<int>, fwd: seq<int>, k: int) returns (v: int)
    requires Searched(ranks, back, fwd) && 0 <= k < |back| + |fwd|
    ensures (v in back || v in fwd) && 0 <= v < |ranks| && Pool(ranks, back, fwd)[k] == ranks[v]
  {
    var sb, sf := SortByRank(ranks, back), SortByRank(ranks, fwd);
    var inFirst, i := MergeElement(RanksOf(ranks, sb), RanksOf(ranks, sf), k);
    v := if inFirst then sb[i] else sf[i];
    SameElements(sb, back, v);
    SameElements(sf, fwd, v);
  }

  lemma PoolFirstDown(ranks: seq<int>, back: seq<int>, fwd: seq<int>, i: int)
    requires Searched(ranks, back, fwd) && 0 <= i < |back|
    ensures Pool(ranks, back, fwd)[i] <= ranks[SortByRank(ranks, back)[i]]
  {
    var rb, rf := RanksOf(ranks, SortByRank(ranks, back)), RanksOf(ranks, SortByRank(ranks, fwd));
    SortedRanks(ranks, back);
    MergeFirstDown(rb, rf, i);
  }

  lemma PoolSecondUp(ranks: seq<int>, back: seq<int>, fwd: seq<int>, j: int, k: int)
    requires Searched(ranks, back, fwd) && 0 <= j < |fwd| && k == |back| + j
    ensures ranks[SortByRank(ranks, fwd)[j]] <= Pool(ranks, back, fwd)[k]
  {
    var sf := SortByRank(ranks, fwd);
    var rb, rf := RanksOf(ranks, SortByRank(ranks, back)), RanksOf(ranks, sf);
    SortedRanks(ranks, back);
    SortedRanks(ranks, fwd);
    assert rf[j] == ranks[sf[j]];
    MergeSecondUp(rb, rf, j, k);
  }

  /** Backward nodes only go down ... */
  lemma BackwardDown(ranks: seq<int>, after: seq<int>, back: seq<int>, fwd: seq<int>, v: int)
    requires Searched(ranks, back, fwd) && Reordered(ranks, after, back, fwd) && v in back
    ensures 0 <= v < |ranks| && after[v] <= ranks[v]
  {
    var k := CollectedAt(ranks, back, fwd, v);
    PoolFirstDown(ranks, back, fwd, k);
    assert after[Collected(ranks, back, fwd)[k]] == Pool(ranks, back, fwd)[k];
  }

  /** ... and forward nodes only go up, ... */
  lemma ForwardUp(ranks: seq<int>, after: seq<int>, back: seq<int>, fwd: seq<int>, v: int)
    requires Searched(ranks, back, fwd) && Reordered(ranks, after, back, fwd) && v in fwd
    ensures 0 <= v < |ranks| && ranks[v] <= after[v]
  {
    var k := CollectedAt(ranks, back, fwd, v);
    PoolSecondUp(ranks, back, fwd, k - |back|, k);
    assert after[Collected(ranks, back, fwd)[k]] == Pool(ranks, back, fwd)[k];
  }

  /** ... onto ranks the two lists already held. */
  lemma NewRankWasHeld(ranks: seq<int>, after: seq<int>, back: seq<int>, fwd: seq<int>, v: int) returns (w: int)
    requires Searched(ranks, back, fwd) && Reordered(ranks, after, back, fwd)
    requires v in back || v in fwd
    ensures 0 <= v < |ranks| && (w in back || w in fwd) && 0 <= w < |ranks| && after[v] == ranks[w]
  {
    var k := CollectedAt(ranks, back, fwd, v);
    w := PoolElement(ranks, back, fwd, k);
  }

  lemma UncollectedKeepsRank(ranks: seq<int>, after: seq<int>, back: seq<int>, fwd: seq<int>, v: int)
    requires Searched(ranks, back, fwd) && Reordered(ranks, after, back, fwd)
    requires 0 <= v < |ranks| && v !in back && v !in fwd
    ensures after[v] == ranks[v]
  {
    CollectedMembers(ranks, back, fwd, v);
  }

  /** Every backward node ends up below every forward node. */
  lemma BackwardBelowForward(ranks: seq<int>, after: seq<int>, back: seq<int>, fwd: seq<int>, u: int, v: int)
    requires Searched(ranks, back, fwd) && Reordered(ranks, after, back, fwd)
    requires u in back && v in fwd
    ensures 0 <= u < |ranks| && 0 <= v < |ranks| && after[u] < after[v]
  {
    var i := CollectedAt(ranks, back, fwd, u);
    var j := CollectedAt(ranks, back, fwd, v);
    PoolAscends(ranks, back, fwd, i, j);
  }

  lemma RankOrderIsListOrder(ranks: seq<int>, s: seq<int>, i: int, j: int)
    requires InRange(s, |ranks|) && RankSorted(ranks, s) && 0 <= i < |s| && 0 <= j < |s|
    requires ranks[s[i]] < ranks[s[j]]
    ensures i < j
  {
  }

  /** Neither list changes its internal order. */
  lemma OrderKept(ranks: seq<int>, after: seq<int>, back: seq<int>, fwd: seq<int>, u: int, v: int)
    requires Searched(ranks, back, fwd) && Reordered(ranks, after, back, fwd)
    requires (u in back && v in back) || (u in fwd && v in fwd)
    requires 0 <= u < |ranks| && 0 <= v < |ranks| && ranks[u] < ranks[v]
    ensures after[u] < after[v]
  {
    hide Pool, SortByRank, Permutation, NoDup;
    var i := CollectedAt(ranks, back, fwd, u);
    var j := CollectedAt(ranks, back, fwd, v);
    SortSorts(ranks, back);
    SortSorts(ranks, fwd);
    if u in back {
      RankOrderIsListOrder(ranks, SortByRank(ranks, back), i, j);
    } else {
      RankOrderIsListOrder(ranks, SortByRank(ranks, fwd), i - |back|, j - |back|);
    }
    PoolAscends(ranks, back, fwd, i, j);
  }

  /** Where a collected node stands decides the rank it receives. */
  lemma Receives(ranks: seq<int>, after: seq<int>, back: seq<int>, fwd: seq<int>, v: int) returns (k: int)
    requires Searched(ranks, back, fwd) && Reordered(ranks, after, back, fwd) && (v in back || v in fwd)
    ensures 0 <= k < |back| + |fwd| && 0 <= v < |ranks| == |after| && InRange(back, |ranks|) && InRange(fwd, |ranks|)
    ensures Collected(ranks, back, fwd)[k] == v && after[v] == Pool(ranks, back, fwd)[k]
  {
    hide Pool, Permutation, NoDup;
    k := CollectedAt(ranks, back, fwd, v);
  }

  lemma PoolApart(ranks: seq<int>, back: seq<int>, fwd: seq<int>, k: int, m: int)
    requires Searched(ranks, back, fwd) && 0 <= k < |back| + |fwd| && 0 <= m < |back| + |fwd| && k != m
    ensures Pool(ranks, back, fwd)[k] != Pool(ranks, back, fwd)[m]
  {
    hide Pool, Permutation, NoDup;
    if k < m {
      PoolAscends(ranks, back, fwd, k, m);
    } else {
      PoolAscends(ranks, back, fwd, m, k);
    }
  }

  lemma CollectedRanksDistinct(ranks: seq<int>, after: seq<int>, back: seq<int>, fwd: seq<int>, i: int, j: int)
    requires Searched(ranks, back, fwd) && Reordered(ranks, after, back, fwd) && i != j
    requires (i in back || i in fwd) && (j in back || j in fwd)
    ensures 0 <= i < |ranks| && 0 <= j < |ranks| && after[i] != after[j]
  {
    hide Searched, Reordered, Pool, Collected, InRange;
    var k := Receives(ranks, after, back, fwd, i);
    var m := Receives(ranks, after, back, fwd, j);
    PoolApart(ranks, back, fwd, k, m);
  }

  lemma NewRanksDistinct(ranks: seq<int>, after: seq<int>, back: seq<int>, fwd: seq<int>, i: int, j: int)
    requires Searched(ranks, back, fwd) && Reordered(ranks, after, back, fwd)
    requires 0 <= i < |after| && 0 <= j < |after| && i != j && (i in back || i in fwd)
    ensures after[i] != after[j]
  {
    if j in back || j in fwd {
      CollectedRanksDistinct(ranks, after, back, fwd, i, j);
    } else {
      UncollectedKeepsRank(ranks, after, back, fwd, j);
      var w := NewRankWasHeld(ranks, after, back, fwd, i);
      DistinctRanks(ranks, w, j);
    }
  }

  /** The ranks stay a permutation of 0..n-1. */
  lemma ReorderPermutes(ranks: seq<int>, after: seq<int>, back: seq<int>, fwd: seq<int>)
    requires Searched(ranks, back, fwd) && Reordered(ranks, after, back, fwd)
    ensures Permutation(after)
  {
    forall i | 0 <= i < |after|
      ensures 0 <= after[i] < |after|
    {
      if i in back || i in fwd {
        var w := NewRankWasHeld(ranks, after, back, fwd, i);
      } else {
        UncollectedKeepsRank(ranks, after, back, fwd, i);
      }
    }
    forall i, j | 0 <= i < j < |after|
      ensures after[i] != after[j]
    {
      if i in back || i in fwd {
        NewRanksDistinct(ranks, after, back, fwd, i, j);
      } else if j in back || j in fwd {
        NewRanksDistinct(ranks, after, back, fwd, j, i);
      } else {
        UncollectedKeepsRank(ranks, after, back, fwd, i);
        UncollectedKeepsRank(ranks, after, back, fwd, j);
      }
    }
  }

  /**
   What the two searches establish for a new edge x -> y whose ranks are the wrong way round: `fwd`
   holds what y reaches below the rank of x, `back` what reaches x above the rank of y.
   */
  ghost predicate Affected(E: Edges, ranks: seq<int>, x: int, y: int, back: seq<int>, fwd: seq<int>) {
    && Searched(ranks, back, fwd)
    && x in back && y in fwd
    && Ascending(E, ranks)
    && (forall v :: v in back || v in fwd ==> 0 <= v < |ranks| && ranks[y] <= ranks[v] <= ranks[x])
    && (forall u, w :: (u, w) in E && u in fwd ==> ranks[w] != ranks[x] && (ranks[w] < ranks[x] ==> w in fwd))
    && (forall u, w :: (w, u) in E && u in back && ranks[w] > ranks[y] ==> w in back)
  }

  /** A collected node's new rank lies between its old rank and the bound of its search. */
  lemma NewRankBounds(E: Edges, ranks: seq<int>, after: seq<int>, x: int, y: int, back: seq<int>, fwd: seq<int>, v: int)
    requires Affected(E, ranks, x, y, back, fwd) && Reordered(ranks, after, back, fwd) && 0 <= v < |ranks|
    ensures v in back ==> ranks[y] <= after[v] <= ranks[v]
    ensures v in fwd ==> ranks[v] <= after[v] <= ranks[x]
    ensures v !in back && v !in fwd ==> after[v] == ranks[v]
  {
    if v in back || v in fwd {
      var w := NewRankWasHeld(ranks, after, back, fwd, v);
      if v in back {
        BackwardDown(ranks, after, back, fwd, v);
      } else {
        ForwardUp(ranks, after, back, fwd, v);
      }
    } else {
      UncollectedKeepsRank(ranks, after, back, fwd, v);
    }
  }

  lemma OldEdgeAscends(E: Edges, ranks: seq<int>, after: seq<int>, x: int, y: int, back: seq<int>, fwd: seq<int>,
                       u: int, v: int)
    requires Affected(E, ranks, x, y, back, fwd) && Reordered(ranks, after, back, fwd)
    requires (u, v) in E
    ensures 0 <= u < |after| && 0 <= v < |after| && after[u] < after[v]
  {
    NewRankBounds(E, ranks, after, x, y, back, fwd, u);
    NewRankBounds(E, ranks, after, x, y, back, fwd, v);
    if u in back && v in fwd {
      BackwardBelowForward(ranks, after, back, fwd, u, v);
    } else if (u in back && v in back) || (u in fwd && v in fwd) {
      OrderKept(ranks, after, back, fwd, u, v);
    } else if v in back && u !in fwd {
      assert ranks[u] <= ranks[y] && u != y;
    }
  }

  /** The Pearce-Kelly step: every old edge and the new edge go up in the new ranks. */
  lemma ReorderAscends(E: Edges, ranks: seq<int>, after: seq<int>, x: int, y: int, back: seq<int>, fwd: seq<int>)
    requires Affected(E, ranks, x, y, back, fwd) && Reordered(ranks, after, back, fwd)
    ensures Permutation(after) && Ascending(E + {(x, y)}, after)
  {
    ReorderPermutes(ranks, after, back, fwd);
    forall u, v | (u, v) in E + {(x, y)}
      ensures 0 <= u < |after| && 0 <= v < |after| && after[u] < after[v]
    {
      if (u, v) == (x, y) {
        BackwardBelowForward(ranks, after, back, fwd, x, y);
      } else {
        OldEdgeAscends(E, ranks, after, x, y, back, fwd, u, v);
      }
    }
  }

  /** Only nodes ranked from y up to x are ranked anew, and their new ranks lie in that range too. */
  ghost predicate RanksMoveWithin(ranks: seq<int>, after: seq<int>, x: int, y: int) {
    && |after| == |ranks|
    && (forall v :: 0 <= v < |ranks| && after[v] != ranks[v] ==>
          && 0 <= x < |ranks| && 0 <= y < |ranks|
          && ranks[y] <= ranks[v] <= ranks[x]
          && ranks[y] <= after[v] <= ranks[x])
  }

  lemma ReorderIsLocal(E: Edges, ranks: seq<int>, after: seq<int>, x: int, y: int, back: seq<int>, fwd: seq<int>)
    requires Affected(E, ranks, x, y, back, fwd) && Reordered(ranks, after, back, fwd)
    ensures RanksMoveWithin(ranks, after, x, y)
  {
    forall v | 0 <= v < |ranks| && after[v] != ranks[v]
      ensures 0 <= x < |ranks| && 0 <= y < |ranks| && ranks[y] <= ranks[v] <= ranks[x]
      ensures ranks[y] <= after[v] <= ranks[x]
    {
      NewRankBounds(E, ranks, after, x, y, back, fwd, v);
    }
  }

  lemma WithinEmptyRange(ranks: seq<int>, after: seq<int>, x: int, y: int)
    requires RanksMoveWithin(ranks, after, x, y)
    requires 0 <= x < |ranks| && 0 <= y < |ranks| && ranks[x] < ranks[y]
    ensures after == ranks
  {
  }

  /** A bounded search that never meets the rank of y proves that y is not reached. */
  lemma BoundedSearchComplete(E: Edges, ranks: seq<int>, S: set<int>, x: int, y: int)
    requires Ascending(E, ranks) && 0 <= y < |ranks| && x in S
    requires forall v :: v in S ==> 0 <= v < |ranks| && ranks[v] < ranks[y]
    requires forall u, w :: (u, w) in E && u in S ==> ranks[w] != ranks[y] && (ranks[w] < ranks[y] ==> w in S)
    ensures !Reaches(E, x, y)
  {
    if Reaches(E, x, y) {
      var C := S + set v | 0 <= v < |ranks| && ranks[y] < ranks[v];
      ClosedContainsReachable(E, C, x, y);
    }
  }
}
