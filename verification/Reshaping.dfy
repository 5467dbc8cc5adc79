/**
 The reshape that sink_binary inserts for an input of fewer axes: when it does the work of the
 transpose it stands for.
 */
module Reshaping {
  import opened TensorAlgebra
  import opened SinkingLimits

  // ---------- row-major positions ----------

  function Size(s: Shape): (r: nat)
    ensures (forall k :: 0 <= k < |s| ==> s[k] > 0) ==> r > 0
  {
    if s == [] then 1 else s[0] * Size(s[1..])
  }

  function Flat(i: Index, s: Shape): int
    requires |i| == |s|
  {
    if s == [] then 0 else i[0] * Size(s[1..]) + Flat(i[1..], s[1..])
  }

  predicate Positive(s: Shape) {
    forall k :: 0 <= k < |s| ==> s[k] > 0
  }

  /** The index at a row-major position. */
  function Unflat(m: int, s: Shape): (i: Index)
    requires Positive(s)
    ensures |i| == |s|
    decreases s
  {
    if s == [] then [] else [m / Size(s[1..])] + Unflat(m % Size(s[1..]), s[1..])
  }

  lemma Times(a: int, b: int, c: int)
    requires a <= b && 0 <= c
    ensures a * c <= b * c
  {
  }

  lemma Quotient(a: int, b: int, c: nat)
    requires c > 0 && 0 <= b < c
    ensures (a * c + b) / c == a && (a * c + b) % c == b
  {
    var x := a * c + b;
    var d := x / c - a;
    assert d * c == x / c * c - a * c;
    if d > 0 {
      Times(1, d, c);
    } else if d < 0 {
      Times(d, -1, c);
    }
  }

  lemma BelowProduct(a: int, b: int, c: nat, d: nat)
    requires 0 <= a < d && 0 <= b < c
    ensures 0 <= a * c + b < d * c
  {
    Times(a + 1, d, c);
  }

  lemma {:induction false} FlatBounds(i: Index, s: Shape)
    requires InBounds(i, s)
    ensures 0 <= Flat(i, s) < Size(s)
  {
    if s != [] {
      FlatBounds(i[1..], s[1..]);
      BelowProduct(i[0], Flat(i[1..], s[1..]), Size(s[1..]), s[0]);
    }
  }

  lemma {:induction false} UnflatFlat(i: Index, s: Shape)
    requires InBounds(i, s) && Positive(s)
    ensures Unflat(Flat(i, s), s) == i
  {
    if s != [] {
      FlatBounds(i[1..], s[1..]);
      UnflatFlat(i[1..], s[1..]);
      Quotient(i[0], Flat(i[1..], s[1..]), Size(s[1..]));
    }
  }

  lemma SplitQuotient(m: int, c: nat, d: nat)
    requires c > 0 && 0 <= m < d * c
    ensures 0 <= m / c < d && 0 <= m % c < c && m == m / c * c + m % c
  {
    if m / c >= d {
      Times(d, m / c, c);
    }
  }

  lemma {:induction false} FlatUnflat(m: int, s: Shape)
    requires Positive(s) && 0 <= m < Size(s)
    ensures InBounds(Unflat(m, s), s) && Flat(Unflat(m, s), s) == m
  {
    if s != [] {
      SplitQuotient(m, Size(s[1..]), s[0]);
      FlatUnflat(m % Size(s[1..]), s[1..]);
      var i := Unflat(m, s);
      assert i[1..] == Unflat(m % Size(s[1..]), s[1..]);
      forall k | 0 <= k < |i| ensures 0 <= i[k] < s[k] {
        assert k > 0 ==> i[k] == i[1..][k - 1];
      }
    }
  }

  // ---------- axes of length 1 do not count ----------

  /** The positions of the axes longer than 1, from position k on. */
  function Long(s: Shape, k: nat): (r: seq<nat>)
    requires k <= |s|
    ensures forall j :: 0 <= j < |r| ==> k <= r[j] < |s|
    decreases |s| - k
  {
    if k == |s| then [] else (if s[k] != 1 then [k] else []) + Long(s, k + 1)
  }

  predicate Increasing(p: seq<nat>) {
    forall a, b :: 0 <= a < b < |p| ==> p[a] < p[b]
  }

  lemma FirstAdded(k: nat, l: seq<nat>)
    requires Increasing(l) && forall j :: 0 <= j < |l| ==> k < l[j]
    ensures Increasing([k] + l) && forall j :: j in [k] + l <==> j == k || j in l
  {
  }

  lemma {:induction false} LongIncreasing(s: Shape, k: nat)
    requires k <= |s|
    ensures Increasing(Long(s, k))
    ensures forall j :: j in Long(s, k) <==> k <= j < |s| && s[j] != 1
    decreases |s| - k
  {
    hide Increasing, Long;
    if k == |s| {
      NoneLong(s);
    } else {
      LongIncreasing(s, k + 1);
      LongStep(s, k);
      FirstAdded(k, Long(s, k + 1));
    }
  }

  lemma NoneLong(s: Shape)
    ensures Long(s, |s|) == [] && Increasing([])
  {
  }

  lemma LongStep(s: Shape, k: nat)
    requires k < |s|
    ensures Long(s, k) == if s[k] != 1 then [k] + Long(s, k + 1) else Long(s, k + 1)
  {
  }

  lemma FirstIn(q: seq<nat>)
    requires q != []
    ensures q[0] in q
  {
  }

  lemma {:induction false} SameIncreasing(p: seq<nat>, q: seq<nat>)
    requires Increasing(p) && Increasing(q) && forall j :: j in p <==> j in q
    ensures p == q
  {
    if p == [] {
      if q != [] {
        FirstIn(q);
      }
    } else {
      assert p[0] in q && q != [] && q[0] in p;
      var a :| 0 <= a < |q| && q[a] == p[0];
      var b :| 0 <= b < |p| && p[b] == q[0];
      assert p[0] == q[0];
      forall j ensures j in p[1..] <==> j in q[1..] {
        if j in p[1..] {
          assert j in p && j != p[0];
        }
        if j in q[1..] {
          assert j in q && j != q[0];
        }
      }
      SameIncreasing(p[1..], q[1..]);
    }
  }

  lemma SizeFrom(s: Shape, k: nat)
    requires k < |s|
    ensures Size(s[k..]) == s[k] * Size(s[k + 1..])
  {
    assert s[k..][1..] == s[k + 1..];
  }

  lemma FlatFrom(i: Index, s: Shape, k: nat)
    requires |i| == |s| && k < |s|
    ensures Flat(i[k..], s[k..]) == i[k] * Size(s[k + 1..]) + Flat(i[k + 1..], s[k + 1..])
  {
    assert s[k..][1..] == s[k + 1..] && i[k..][1..] == i[k + 1..];
  }

  lemma ApplyFirst<T>(s: seq<T>, k: nat, l: Order)
    requires k < |s| && forall j :: 0 <= j < |l| ==> l[j] < |s|
    ensures Apply(s, [k] + l) == [s[k]] + Apply(s, l)
  {
  }

  lemma SizeFirst(n: nat, s: Shape)
    ensures Size([n] + s) == n * Size(s)
  {
    assert ([n] + s)[1..] == s;
  }

  lemma FlatFirst(a: int, i: Index, n: nat, s: Shape)
    requires |i| == |s|
    ensures Flat([a] + i, [n] + s) == a * Size(s) + Flat(i, s)
  {
    assert ([n] + s)[1..] == s && ([a] + i)[1..] == i;
  }

  /** From position k on, size and position are those of the long axes. */
  predicate LongDecide(i: Index, s: Shape, k: nat)
    requires |i| == |s| && k <= |s|
  {
    && Size(s[k..]) == Size(Apply(s, Long(s, k)))
    && Flat(i[k..], s[k..]) == Flat(Apply(i, Long(s, k)), Apply(s, Long(s, k)))
  }

  lemma NoAxesLeft(i: Index, s: Shape)
    requires |i| == |s|
    ensures LongDecide(i, s, |s|)
  {
    assert s[|s|..] == [] && Apply(s, Long(s, |s|)) == [] && i[|s|..] == [] && Apply(i, Long(s, |s|)) == [];
  }

  lemma ShortAxis(i: Index, s: Shape, k: nat)
    requires |i| == |s| && k < |s| && s[k] == 1 && i[k] == 0 && LongDecide(i, s, k + 1)
    ensures LongDecide(i, s, k)
  {
    hide Size, Flat, Apply;
    SizeFrom(s, k);
    FlatFrom(i, s, k);
    assert Long(s, k) == Long(s, k + 1);
  }

  lemma LongAxis(i: Index, s: Shape, k: nat)
    requires |i| == |s| && k < |s| && s[k] != 1 && LongDecide(i, s, k + 1)
    ensures LongDecide(i, s, k)
  {
    hide Size, Flat, Apply;
    var l := Long(s, k + 1);
    SizeFrom(s, k);
    FlatFrom(i, s, k);
    ApplyFirst(s, k, l);
    ApplyFirst(i, k, l);
    SizeFirst(s[k], Apply(s, l));
    FlatFirst(i[k], Apply(i, l), s[k], Apply(s, l));
    assert Long(s, k) == [k] + l;
  }

  /** The position is determined by the long axes. */
  lemma {:induction false} FlatOfLong(i: Index, s: Shape, k: nat)
    requires |i| == |s| && k <= |s| && forall j :: 0 <= j < |s| && s[j] == 1 ==> i[j] == 0
    ensures LongDecide(i, s, k)
    decreases |s| - k
  {
    hide LongDecide;
    if k == |s| {
      NoAxesLeft(i, s);
    } else {
      FlatOfLong(i, s, k + 1);
      if s[k] == 1 {
        ShortAxis(i, s, k);
      } else {
        LongAxis(i, s, k);
      }
    }
  }

  /** The axes longer than 1 keep their order. */
  predicate KeepsOrder(e: Shape, p: Order)
    requires |p| == |e| && InRange(p)
  {
    forall a, b :: 0 <= a < b < |p| && e[p[a]] != 1 && e[p[b]] != 1 ==> p[a] < p[b]
  }

  /** Where the long axes come from, in the order in which they stand after moving. */
  function Sources(e: Shape, p: Order): (m: seq<nat>)
    requires |p| == |e| && InRange(p)
    ensures |m| == |Long(Apply(e, p), 0)|
    ensures forall j :: 0 <= j < |m| ==> m[j] == p[Long(Apply(e, p), 0)[j]]
  {
    Apply(p, Long(Apply(e, p), 0))
  }

  lemma SourcesIncrease(e: Shape, p: Order)
    requires |p| == |e| && InRange(p) && KeepsOrder(e, p)
    ensures Increasing(Sources(e, p))
  {
    var l := Long(Apply(e, p), 0);
    LongIncreasing(Apply(e, p), 0);
    forall a, b | 0 <= a < b < |l| ensures p[l[a]] < p[l[b]] {
      assert l[a] in l && l[b] in l;
    }
  }

  lemma SourceIsLong(e: Shape, p: Order, a: nat)
    requires |p| == |e| && InRange(p) && a < |Sources(e, p)|
    ensures Sources(e, p)[a] in Long(e, 0)
  {
    var l := Long(Apply(e, p), 0);
    LongIncreasing(Apply(e, p), 0);
    LongIncreasing(e, 0);
    assert l[a] in l;
  }

  lemma LongIsSource(e: Shape, p: Order, j: nat)
    requires IsPermutation(p) && |p| == |e| && InRange(p) && j in Long(e, 0)
    ensures j in Sources(e, p)
  {
    LongIncreasing(Apply(e, p), 0);
    LongIncreasing(e, 0);
    var k := Inverse(p)[j];
    assert p[k] == j && Apply(e, p)[k] == e[j] && k in Long(Apply(e, p), 0);
    var a :| 0 <= a < |Long(Apply(e, p), 0)| && Long(Apply(e, p), 0)[a] == k;
    assert Sources(e, p)[a] == j;
  }

  lemma LongMoves(e: Shape, p: Order)
    requires IsPermutation(p) && |p| == |e| && InRange(p) && KeepsOrder(e, p)
    ensures Sources(e, p) == Long(e, 0)
  {
    hide IsPermutation, KeepsOrder, Sources, Long;
    SourcesIncrease(e, p);
    LongIncreasing(e, 0);
    forall j ensures j in Sources(e, p) <==> j in Long(e, 0) {
      if j in Sources(e, p) {
        var a :| 0 <= a < |Sources(e, p)| && Sources(e, p)[a] == j;
        SourceIsLong(e, p, a);
      }
      if j in Long(e, 0) {
        LongIsSource(e, p, j);
      }
    }
    SameIncreasing(Sources(e, p), Long(e, 0));
  }

  /** If the long axes keep their order, an index and the one it comes from have the same position. */
  lemma SamePosition(e: Shape, p: Order, i: Index)
    requires IsPermutation(p) && |p| == |e| && InRange(p) && KeepsOrder(e, p) && InBounds(i, Apply(e, p))
    ensures Flat(i, Apply(e, p)) == Flat(Back(i, p), e)
  {
    var t, b := Apply(e, p), Back(i, p);
    BackInBounds(i, e, p);
    LongMoves(e, p);
    var l := Long(t, 0);
    FlatOfLong(i, t, 0);
    FlatOfLong(b, e, 0);
    assert i[0..] == i && t[0..] == t && b[0..] == b && e[0..] == e;
    assert Apply(t, l) == Apply(e, Long(e, 0));
    forall j | 0 <= j < |l| ensures i[l[j]] == b[p[l[j]]] {
      assert Inverse(p)[p[l[j]]] == l[j];
    }
    assert Apply(i, l) == Apply(b, Long(e, 0));
  }

  // ---------- and only then ----------

  /** 1 at position k, 0 elsewhere. */
  function Unit(n: nat, k: nat): (r: Index)
    ensures |r| == n && forall j :: 0 <= j < n ==> r[j] == if j == k then 1 else 0
  {
    seq(n, j => if j == k then 1 else 0)
  }

  lemma {:induction false} FlatZeros(i: Index, s: Shape)
    requires |i| == |s| && forall j :: 0 <= j < |i| ==> i[j] == 0
    ensures Flat(i, s) == 0
  {
    if s != [] {
      FlatZeros(i[1..], s[1..]);
    }
  }

  lemma {:induction false} FlatUnit(s: Shape, k: nat, m: nat)
    requires m <= k < |s|
    ensures Flat(Unit(|s|, k)[m..], s[m..]) == Size(s[k + 1..])
    decreases k - m
  {
    FlatFrom(Unit(|s|, k), s, m);
    if m < k {
      FlatUnit(s, k, m + 1);
    } else {
      FlatZeros(Unit(|s|, k)[m + 1..], s[m + 1..]);
    }
  }

  lemma {:induction false} SizesShrink(s: Shape, k: nat, m: nat)
    requires Positive(s) && k <= m < |s|
    ensures Size(s[k..]) >= Size(s[m..]) >= Size(s[m + 1..]) > 0
    ensures s[m] > 1 ==> Size(s[k..]) > Size(s[m + 1..])
    decreases m - k
  {
    SizeFrom(s, m);
    assert Size(s[m + 1..]) > 0;
    hide Size;
    if k < m {
      SizesShrink(s, k + 1, m);
      SizeFrom(s, k);
      Times(1, s[k], Size(s[k + 1..]));
    } else {
      Times(1, s[m], Size(s[m + 1..]));
      if s[m] > 1 {
        Times(2, s[m], Size(s[m + 1..]));
      }
    }
  }

  lemma BackOfUnit(p: Order, k: nat)
    requires IsPermutation(p) && InRange(p) && k < |p|
    ensures Back(Unit(|p|, k), p) == Unit(|p|, p[k])
  {
    var b := Back(Unit(|p|, k), p);
    forall j | 0 <= j < |p| ensures b[j] == Unit(|p|, p[k])[j] {
      assert p[Inverse(p)[j]] == j && Inverse(p)[p[k]] == k;
    }
  }

  lemma UnitMoves(e: Shape, p: Order, k: nat)
    requires IsPermutation(p) && |p| == |e| && InRange(p) && k < |p| && Positive(e) && e[p[k]] != 1
    ensures InBounds(Unit(|p|, k), Apply(e, p))
    ensures Flat(Unit(|p|, k), Apply(e, p)) == Size(Apply(e, p)[k + 1..])
    ensures Flat(Back(Unit(|p|, k), p), e) == Size(e[p[k] + 1..])
  {
    hide Flat, Size, IsPermutation;
    var t := Apply(e, p);
    BackOfUnit(p, k);
    FlatUnit(t, k, 0);
    FlatUnit(e, p[k], 0);
    assert Unit(|p|, k)[0..] == Unit(|p|, k) && Unit(|p|, p[k])[0..] == Unit(|p|, p[k]) && t[0..] == t && e[0..] == e;
  }

  lemma DifferentPlaces(p: Order, a: nat, b: nat)
    requires IsPermutation(p) && InRange(p) && a < b < |p|
    ensures p[a] != p[b]
  {
    assert Inverse(p)[p[a]] == a && Inverse(p)[p[b]] == b;
  }

  /** Two long axes that change places: some index changes its position. */
  lemma OtherPosition(e: Shape, p: Order) returns (i: Index)
    requires IsPermutation(p) && |p| == |e| && InRange(p) && Positive(e) && !KeepsOrder(e, p)
    ensures InBounds(i, Apply(e, p)) && Flat(i, Apply(e, p)) != Flat(Back(i, p), e)
  {
    hide Flat, Size, IsPermutation, InBounds;
    var t := Apply(e, p);
    var a, b :| 0 <= a < b < |p| && e[p[a]] != 1 && e[p[b]] != 1 && p[a] >= p[b];
    DifferentPlaces(p, a, b);
    UnitMoves(e, p, a);
    UnitMoves(e, p, b);
    SizesShrink(t, a + 1, b);
    SizesShrink(e, p[b] + 1, p[a]);
    i := if Size(t[a + 1..]) != Size(e[p[a] + 1..]) then Unit(|p|, a) else Unit(|p|, b);
  }

  // ---------- reshaping ----------

  /** The elements in row-major order under another shape. */
  ghost function Reshape(x: Tensor, t: Shape): (r: Tensor)
    requires Positive(x.shape)
    ensures r.WellFormed() && r.shape == t
  {
    Build(t, (i: Index) => if |i| == |t| then x.Get(Unflat(Flat(i, t), x.shape)) else 0)
  }

  lemma ReshapeAt(x: Tensor, t: Shape, i: Index)
    requires Positive(x.shape) && InBounds(i, t)
    ensures Reshape(x, t).Get(i) == x.Get(Unflat(Flat(i, t), x.shape))
  {
    BuildAt(t, (i: Index) => if |i| == |t| then x.Get(Unflat(Flat(i, t), x.shape)) else 0, i);
  }

  /** x with leading axes of length 1. */
  ghost function Widened(x: Tensor, n: nat): (r: Tensor)
    requires |x.shape| <= n
    ensures r.WellFormed() && r.shape == Extend(x.shape, n)
  {
    Build(Extend(x.shape, n), (i: Index) => if |i| == n then x.Get(i[n - |x.shape|..]) else 0)
  }

  lemma WidenedAt(x: Tensor, n: nat, i: Index)
    requires |x.shape| <= n && InBounds(i, Extend(x.shape, n))
    ensures Widened(x, n).Get(i) == x.Get(i[n - |x.shape|..])
  {
    BuildAt(Extend(x.shape, n), (i: Index) => if |i| == n then x.Get(i[n - |x.shape|..]) else 0, i);
  }

  /** Leading axes of length 1 do not move an element. */
  lemma {:induction false} FlatWidened(i: Index, s: Shape, n: nat)
    requires |s| <= n && InBounds(i, Extend(s, n))
    ensures InBounds(i[n - |s|..], s) && Flat(i, Extend(s, n)) == Flat(i[n - |s|..], s)
    decreases n
  {
    if |s| < n {
      var e := Extend(s, n);
      assert e[1..] == Extend(s, n - 1) && e[0] == 1 && i[0] == 0;
      FlatWidened(i[1..], s, n - 1);
      assert i[1..][n - 1 - |s|..] == i[n - |s|..];
    } else {
      assert i[0..] == i;
    }
  }

  lemma ReshapedWidened(x: Tensor, n: nat, p: Order, i: Index)
    requires x.WellFormed() && Positive(x.shape) && |x.shape| <= n == |p| && IsPermutation(p) && InRange(p)
    requires InBounds(i, Apply(Extend(x.shape, n), p))
    requires Flat(i, Apply(Extend(x.shape, n), p)) == Flat(Back(i, p), Extend(x.shape, n))
    ensures SameAt(Reshape(x, Apply(Extend(x.shape, n), p)), Permute(Widened(x, n), p), i)
  {
    hide Reshape, Widened, Permute, IsPermutation, Flat, Unflat;
    var e := Extend(x.shape, n);
    var t, b := Apply(e, p), Back(i, p);
    BackInBounds(i, e, p);
    ReshapeAt(x, t, i);
    PermuteAt(Widened(x, n), p, i);
    WidenedAt(x, n, b);
    FlatWidened(b, x.shape, n);
    UnflatFlat(b[n - |x.shape|..], x.shape);
  }

  /** If the long axes keep their order, reshaping does what transposing would do. */
  lemma ReshapeTransposes(x: Tensor, n: nat, p: Order)
    requires x.WellFormed() && Positive(x.shape) && |x.shape| <= n == |p| && IsPermutation(p) && InRange(p)
    requires KeepsOrder(Extend(x.shape, n), p)
    ensures Reshape(x, Apply(Extend(x.shape, n), p)) == Permute(Widened(x, n), p)
  {
    hide Reshape, Widened, Permute, IsPermutation, Flat, KeepsOrder, Extend;
    var a, b := Reshape(x, Apply(Extend(x.shape, n), p)), Permute(Widened(x, n), p);
    forall i | InBounds(i, a.shape) ensures SameAt(a, b, i) {
      SamePosition(Extend(x.shape, n), p, i);
      ReshapedWidened(x, n, p, i);
    }
    SameTensor(a, b);
  }

  // ---------- the inserted reshape ----------

  lemma ExtendAt(s: Shape, n: nat, m: nat)
    requires |s| <= n && m < n
    ensures Extend(s, n)[m] == if m < n - |s| then 1 else s[m - (n - |s|)]
  {
  }

  lemma WidenedOut(i: Index, s: Shape, n: nat, j: Index)
    requires |s| <= n == |i| && j == i[n - |s|..] && InBounds(j, s) && forall k :: 0 <= k < n - |s| ==> i[k] == 0
    ensures InBounds(i, Extend(s, n))
  {
    hide Extend;
    forall m | 0 <= m < |i| ensures 0 <= i[m] < Extend(s, n)[m] {
      ExtendAt(s, n, m);
      if m >= n - |s| {
        assert j[m - (n - |s|)] == i[m];
      }
    }
  }

  lemma WidenedGet(x: Tensor, n: nat, i: Index)
    requires x.WellFormed() && |x.shape| <= n == |i| && forall k :: 0 <= k < n - |x.shape| ==> i[k] == 0
    ensures Widened(x, n).Get(i) == x.Get(i[n - |x.shape|..])
  {
    hide Widened, Extend, InBounds;
    var j := i[n - |x.shape|..];
    if InBounds(i, Extend(x.shape, n)) {
      WidenedAt(x, n, i);
    } else {
      GetOutside(Widened(x, n), i);
      if InBounds(j, x.shape) {
        WidenedOut(i, x.shape, n, j);
      } else {
        GetOutside(x, j);
      }
    }
  }

  lemma ShrunkWidened(i: Index, s: Shape, n: nat)
    requires |s| <= n <= |i|
    ensures Shrunk(i, Extend(s, n))[n - |s|..] == Shrunk(i, s)
    ensures forall k :: 0 <= k < n - |s| ==> Shrunk(i, Extend(s, n))[k] == 0
  {
    hide Extend, Shrunk;
    var w := Shrunk(i, Extend(s, n));
    forall k | 0 <= k < n - |s| ensures w[k] == 0 {
      ExtendAt(s, n, k);
    }
    forall k | 0 <= k < |s| ensures w[n - |s|..][k] == Shrunk(i, s)[k] {
      ExtendAt(s, n, n - |s| + k);
    }
  }

  lemma WidenedShape(s: Shape, t: Shape)
    requires |s| <= |t|
    ensures BroadcastShape(Extend(s, |t|), t) == BroadcastShape(s, t)
    ensures BroadcastShape(t, Extend(s, |t|)) == BroadcastShape(t, s)
  {
  }

  /** Broadcasting widens by itself. */
  lemma ZipWidened(f: (Element, Element) -> Element, x: Tensor, y: Tensor)
    requires x.WellFormed() && |x.shape| <= |y.shape|
    ensures Zip(f, x, y) == Zip(f, Widened(x, |y.shape|), y) && Zip(f, y, x) == Zip(f, y, Widened(x, |y.shape|))
  {
    hide Zip, Widened, Extend, BroadcastShape;
    var w := Widened(x, |y.shape|);
    WidenedShape(x.shape, y.shape);
    forall i | InBounds(i, BroadcastShape(x.shape, y.shape)) ensures SameAt(Zip(f, x, y), Zip(f, w, y), i) {
      ShrunkWidened(i, x.shape, |y.shape|);
      WidenedGet(x, |y.shape|, Shrunk(i, w.shape));
      ZipAt(f, x, y, i);
      ZipAt(f, w, y, i);
    }
    SameTensor(Zip(f, x, y), Zip(f, w, y));
    forall i | InBounds(i, BroadcastShape(y.shape, x.shape)) ensures SameAt(Zip(f, y, x), Zip(f, y, w), i) {
      ShrunkWidened(i, x.shape, |y.shape|);
      WidenedGet(x, |y.shape|, Shrunk(i, w.shape));
      ZipAt(f, y, x, i);
      ZipAt(f, y, w, i);
    }
    SameTensor(Zip(f, y, x), Zip(f, y, w));
  }

  /** The shape to which an input of shape s is reshaped in front of an argument with pending order q. */
  function NewShape(s: Shape, q: Order): (r: Shape)
    requires |s| <= |q| && InRange(Inverse(q))
    ensures |r| == |q|
  {
    Apply(Extend(s, |q|), Inverse(q))
  }

  /** Whatever the operation and its arguments: reshaping the input of shape s in default order keeps the result. */
  ghost predicate ReshapePreserved(s: Shape, q: Order)
    requires Positive(s) && |s| <= |q| && Orders(q, q) && InRange(Inverse(q))
  {
    forall f: (Element, Element) -> Element, x: Tensor, b: Tensor ::
      x.WellFormed() && x.shape == s && Fits(b, q) ==> KeptByReshape(f, x, b, q)
  }

  ghost predicate KeptByReshape(f: (Element, Element) -> Element, x: Tensor, b: Tensor, q: Order)
    requires Positive(x.shape) && |x.shape| <= |q| && Orders(q, q) && InRange(Inverse(q)) && Fits(b, q)
  {
    var u := Reshape(x, NewShape(x.shape, q));
    && Zip(f, x, Permute(b, q)) == Permute(Zip(f, u, b), q)
    && Zip(f, Permute(b, q), x) == Permute(Zip(f, b, u), q)
  }

  lemma KeptByTranspose(f: (Element, Element) -> Element, x: Tensor, b: Tensor, q: Order)
    requires x.WellFormed() && |x.shape| <= |q| && Orders(q, q) && Fits(b, q)
    ensures Zip(f, x, Permute(b, q)) == Permute(Zip(f, Permute(Widened(x, |q|), Inverse(q)), b), q)
    ensures Zip(f, Permute(b, q), x) == Permute(Zip(f, b, Permute(Widened(x, |q|), Inverse(q))), q)
  {
    hide Zip, Permute, IsPermutation, Widened, Inverse, Extend;
    ZipWidened(f, x, Permute(b, q));
    ConvertedKept(f, q, Widened(x, |q|), b);
    ConvertedKeptLeft(f, q, b, Widened(x, |q|));
  }

  lemma ReshapeKeeps(f: (Element, Element) -> Element, x: Tensor, b: Tensor, q: Order)
    requires x.WellFormed() && Positive(x.shape) && |x.shape| <= |q| && Orders(q, q) && InRange(Inverse(q))
    requires Fits(b, q)
    requires KeepsOrder(Extend(x.shape, |q|), Inverse(q))
    ensures KeptByReshape(f, x, b, q)
  {
    hide Zip, Permute, IsPermutation, Reshape, Widened, Inverse, Extend, KeepsOrder, Positive;
    ReshapeTransposes(x, |q|, Inverse(q));
    KeptByTranspose(f, x, b, q);
  }

  // ---------- and where it loses ----------

  /** Every element tells its position, counted from 1. */
  ghost function Positions(s: Shape): (r: Tensor)
    ensures r.WellFormed() && r.shape == s
  {
    Build(s, (i: Index) => if |i| == |s| then Flat(i, s) + 1 else 0)
  }

  lemma PositionsAt(s: Shape, i: Index)
    requires InBounds(i, s)
    ensures Positions(s).Get(i) == Flat(i, s) + 1
  {
    BuildAt(s, (i: Index) => if |i| == |s| then Flat(i, s) + 1 else 0, i);
  }

  lemma LeftOfOnes(x: Tensor, y: Tensor)
    requires x.WellFormed() && y.shape == Ones(|x.shape|)
    ensures Zip((a: Element, b: Element) => a, x, y) == x
  {
    hide Zip;
    var z := Zip((a: Element, b: Element) => a, x, y);
    assert BroadcastShape(x.shape, y.shape) == x.shape;
    forall i | InBounds(i, x.shape) ensures SameAt(z, x, i) {
      ZipAt((a: Element, b: Element) => a, x, y, i);
      assert Shrunk(i, x.shape) == i;
    }
    SameTensor(z, x);
  }

  lemma QuotientAbove(m: int, c: nat, d: nat)
    requires c > 0 && m >= d * c
    ensures m / c >= d
  {
    assert m < (m / c + 1) * c;
    if m / c < d {
      Times(m / c + 1, d, c);
    }
  }

  lemma UnflatOutside(m: int, s: Shape)
    requires Positive(s) && s != [] && m >= Size(s)
    ensures !InBounds(Unflat(m, s), s)
  {
    QuotientAbove(m, Size(s[1..]), s[0]);
  }

  /** Reshaping moves the element at position m to position m, if there is one. */
  lemma ReshapedPosition(s: Shape, t: Shape, i: Index)
    requires Positive(s) && s != [] && InBounds(i, t)
    ensures Reshape(Positions(s), t).Get(i) in {Flat(i, t) + 1, 0}
  {
    hide Reshape, Positions, Flat, Unflat, Size;
    var m := Flat(i, t);
    FlatBounds(i, t);
    ReshapeAt(Positions(s), t, i);
    if m < Size(s) {
      FlatUnflat(m, s);
      PositionsAt(s, Unflat(m, s));
    } else {
      UnflatOutside(m, s);
      GetOutside(Positions(s), Unflat(m, s));
    }
  }

  lemma GetOutside(x: Tensor, i: Index)
    requires x.WellFormed() && !InBounds(i, x.shape)
    ensures x.Get(i) == 0
  {
    assert i !in x.at.Keys;
  }

  /** Two long axes that change places: reshaping is not transposing. */
  lemma ReshapeDiffers(s: Shape, n: nat, p: Order)
    requires Positive(s) && |s| <= n == |p| && IsPermutation(p) && InRange(p) && !KeepsOrder(Extend(s, n), p)
    ensures Reshape(Positions(s), Apply(Extend(s, n), p)) != Permute(Widened(Positions(s), n), p)
  {
    hide Reshape, Widened, Permute, IsPermutation, Flat, Positions, Unflat;
    var e := Extend(s, n);
    assert s != [] && Positive(e);
    var i := OtherPosition(e, p);
    var b := Back(i, p);
    BackInBounds(i, e, p);
    ReshapedPosition(s, Apply(e, p), i);
    PermuteAt(Widened(Positions(s), n), p, i);
    WidenedAt(Positions(s), n, b);
    FlatWidened(b, s, n);
    PositionsAt(s, b[n - |s|..]);
    FlatBounds(b, e);
  }

  /** If the operation is "take the first argument", what is kept is the widened input itself. */
  lemma KeptIsTransposed(x: Tensor, b: Tensor, q: Order)
    requires x.WellFormed() && Positive(x.shape) && |x.shape| <= |q| && Orders(q, q) && InRange(Inverse(q))
    requires Fits(b, q)
    requires b.shape == Ones(|q|) && KeptByReshape((a: Element, c: Element) => a, x, b, q)
    ensures Widened(x, |q|) == Permute(Reshape(x, NewShape(x.shape, q)), q)
  {
    PermutationInRange(q);
    hide Zip, Permute, IsPermutation, Reshape, Widened, Inverse, Extend, NewShape;
    OnesStay(|q|, q);
    ZipWidened((a: Element, c: Element) => a, x, Permute(b, q));
    LeftOfOnes(Widened(x, |q|), Permute(b, q));
    LeftOfOnes(Reshape(x, NewShape(x.shape, q)), b);
  }

  lemma BackAgain(w: Tensor, u: Tensor, q: Order)
    requires u.WellFormed() && Orders(q, q) && |u.shape| == |w.shape| == |q| && w == Permute(u, q)
    ensures u == Permute(w, Inverse(q))
  {
    hide Permute, IsPermutation;
    InverseIsPermutation(q);
    PermuteBack(u, Inverse(q));
  }

  lemma ReshapeLoses(s: Shape, q: Order)
    requires Positive(s) && |s| <= |q| && Orders(q, q) && InRange(Inverse(q)) && !KeepsOrder(Extend(s, |q|), Inverse(q))
    ensures !KeptByReshape((a: Element, c: Element) => a, Positions(s), Zeros(Ones(|q|)), q)
  {
    hide Permute, IsPermutation, Reshape, Widened, KeptByReshape, KeepsOrder, Positions, Zeros, Inverse;
    var x, b := Positions(s), Zeros(Ones(|q|));
    if KeptByReshape((a: Element, c: Element) => a, x, b, q) {
      KeptIsTransposed(x, b, q);
      BackAgain(Widened(x, |q|), Reshape(x, NewShape(s, q)), q);
      ReshapeDiffers(s, |q|, Inverse(q));
    }
  }

  /**
   An input of fewer axes that is reshaped keeps the result, whatever the operation and the tensors, exactly if
   its axes longer than 1 come out in the order in which they went in.
   */
  lemma ReshapePreservedIff(s: Shape, q: Order)
    requires Positive(s) && |s| <= |q| && Orders(q, q) && InRange(Inverse(q))
    ensures ReshapePreserved(s, q) <==> KeepsOrder(Extend(s, |q|), Inverse(q))
  {
    hide KeptByReshape, KeepsOrder, Orders, Positions, Zeros, Positive;
    if KeepsOrder(Extend(s, |q|), Inverse(q)) {
      forall f: (Element, Element) -> Element, x: Tensor, b: Tensor | x.WellFormed() && x.shape == s && Fits(b, q)
        ensures KeptByReshape(f, x, b, q)
      {
        ReshapeKeeps(f, x, b, q);
      }
    } else {
      ReshapeLoses(s, q);
      assert Fits(Zeros(Ones(|q|)), q);
    }
  }

  lemma OneLongAxis(s: Shape, p: Order)
    requires |s| <= 1 && |s| <= |p| && IsPermutation(p) && InRange(p)
    ensures KeepsOrder(Extend(s, |p|), p)
  {
    forall a, b | 0 <= a < b < |p| ensures p[a] != p[b] {
      DifferentPlaces(p, a, b);
    }
    hide IsPermutation;
    assert forall k :: 0 <= k < |p| - 1 ==> Extend(s, |p|)[k] == 1;
  }

  /** So a vector is always kept, ... */
  lemma VectorsKept(s: Shape, q: Order)
    requires |s| <= 1 && Positive(s) && |s| <= |q| && Orders(q, q) && InRange(Inverse(q))
    ensures ReshapePreserved(s, q)
  {
    hide ReshapePreserved, IsPermutation, Inverse, Extend, KeepsOrder;
    OneLongAxis(s, Inverse(q));
    ReshapePreservedIff(s, q);
  }

  /** What a reshape to shape t gives: the elements in row-major order, if there are any. */
  ghost function Reshaped(x: Tensor, t: Shape): (r: Tensor)
    ensures r.WellFormed() && r.shape == t
  {
    if Positive(x.shape) then Reshape(x, t) else Zeros(t)
  }

  lemma EmptyAxisMoves(s: Shape, p: Order)
    requires !Positive(s) && |s| <= |p| && IsPermutation(p) && InRange(p)
    ensures forall i :: !InBounds(i, Apply(Extend(s, |p|), p))
  {
    var k :| 0 <= k < |s| && s[k] == 0;
    var m := |p| - |s| + k;
    ExtendAt(s, |p|, m);
    var j := Inverse(p)[m];
    assert p[j] == m;
    assert Apply(Extend(s, |p|), p)[j] == 0;
  }

  /** A tensor of shape s has no elements, or its long axes keep their order in front of an argument of order q. */
  predicate MovesInOrder(s: Shape, q: Order) {
    |s| <= |q| && InRange(Inverse(q)) && (Positive(s) ==> KeepsOrder(Extend(s, |q|), Inverse(q)))
  }

  /** Then the reshape is the transpose it stands for. */
  lemma InOrderReshaped(x: Tensor, q: Order)
    requires x.WellFormed() && MovesInOrder(x.shape, q) && IsPermutation(Inverse(q))
    ensures Reshaped(x, NewShape(x.shape, q)) == Permute(Widened(x, |q|), Inverse(q))
  {
    hide Reshape, Widened, Permute, IsPermutation, Extend, KeepsOrder, Zeros, Inverse, Positive;
    if Positive(x.shape) {
      ReshapeTransposes(x, |q|, Inverse(q));
    } else {
      var a, b := Reshaped(x, NewShape(x.shape, q)), Permute(Widened(x, |q|), Inverse(q));
      EmptyAxisMoves(x.shape, Inverse(q));
      SameTensor(a, b);
    }
  }

  /** For a vector it always is. */
  lemma VectorInOrder(s: Shape, q: Order)
    requires |s| <= 1 && |s| <= |q| && IsPermutation(Inverse(q)) && InRange(Inverse(q))
    ensures MovesInOrder(s, q)
  {
    OneLongAxis(s, Inverse(q));
  }

  /** So a vector, with or without elements, may be reshaped in the place of a transpose. */
  lemma VectorReshaped(x: Tensor, q: Order)
    requires x.WellFormed() && |x.shape| <= 1 && |x.shape| <= |q| && IsPermutation(Inverse(q)) && InRange(Inverse(q))
    ensures Reshaped(x, NewShape(x.shape, q)) == Permute(Widened(x, |q|), Inverse(q))
  {
    hide Reshaped, Widened, Permute, IsPermutation, Extend, Inverse;
    VectorInOrder(x.shape, q);
    InOrderReshaped(x, q);
  }

  // ---------- reshaping to any shape ----------

  ghost predicate TargetKept(f: (Element, Element) -> Element, x: Tensor, t: Shape, b: Tensor, q: Order)
    requires |x.shape| <= |q| == |t| && Orders(q, q) && Fits(b, q)
  {
    var u := Reshaped(x, t);
    && Zip(f, x, Permute(b, q)) == Permute(Zip(f, u, b), q)
    && Zip(f, Permute(b, q), x) == Permute(Zip(f, b, u), q)
  }

  /** Whatever the operation and its arguments: reshaping the input of shape s to shape t keeps the result. */
  ghost predicate TargetPreserved(s: Shape, t: Shape, q: Order)
    requires |s| <= |q| == |t| && Orders(q, q)
  {
    forall f: (Element, Element) -> Element, x: Tensor, b: Tensor ::
      x.WellFormed() && x.shape == s && Fits(b, q) ==> TargetKept(f, x, t, b, q)
  }

  lemma OnesStretch(s: Shape, n: nat)
    requires |s| <= n
    ensures BroadcastShape(s, Ones(n)) == Extend(s, n)
  {
  }

  /** Another shape than that of the transposed input cannot be right: the shape of the result tells. */
  lemma TargetShape(f: (Element, Element) -> Element, s: Shape, t: Shape, q: Order)
    requires |s| <= |q| == |t| && Orders(q, q) && InRange(Inverse(q))
    requires TargetKept(f, Zeros(s), t, Zeros(Ones(|q|)), q)
    ensures t == NewShape(s, q)
  {
    PermutationInRange(q);
    hide Zip, Permute, IsPermutation, Reshaped, Zeros, Inverse, Extend, BroadcastShape, Ones;
    OnesStay(|q|, q);
    OnesStretch(s, |q|);
    OnesStretch(t, |q|);
    assert Apply(t, q) == Extend(s, |q|);
    ApplyInverse(t, q);
  }

  /** With that shape it is the reshape of before, if there are elements. */
  lemma TargetKeepsOrder(s: Shape, t: Shape, q: Order)
    requires |s| <= |q| == |t| && Orders(q, q) && InRange(Inverse(q)) && t == NewShape(s, q) && Positive(s)
    requires TargetPreserved(s, t, q)
    ensures KeepsOrder(Extend(s, |q|), Inverse(q))
  {
    hide IsPermutation, Zip, Permute, Reshape, KeepsOrder, Inverse, Extend;
    forall f: (Element, Element) -> Element, x: Tensor, b: Tensor | x.WellFormed() && x.shape == s && Fits(b, q)
      ensures KeptByReshape(f, x, b, q)
    {
      assert TargetKept(f, x, t, b, q);
    }
    ReshapePreservedIff(s, q);
  }

  lemma InOrderKept(f: (Element, Element) -> Element, x: Tensor, b: Tensor, q: Order)
    requires x.WellFormed() && Orders(q, q) && Fits(b, q) && MovesInOrder(x.shape, q)
    ensures TargetKept(f, x, NewShape(x.shape, q), b, q)
  {
    hide Zip, Permute, IsPermutation, Reshaped, Widened, KeepsOrder, Inverse, Extend;
    InOrderReshaped(x, q);
    KeptByTranspose(f, x, b, q);
  }

  /**
   Reshaping to any shape keeps the result, whatever the operation and the tensors, exactly if the shape is that of
   the widened and transposed input and the axes longer than 1 keep their order.
   */
  lemma TargetPreservedIff(s: Shape, t: Shape, q: Order)
    requires |s| <= |q| == |t| && Orders(q, q) && InRange(Inverse(q))
    ensures TargetPreserved(s, t, q) <==> t == NewShape(s, q) && MovesInOrder(s, q)
  {
    hide TargetKept, Orders, KeepsOrder, Inverse, Extend, Zeros, Ones;
    if t == NewShape(s, q) && MovesInOrder(s, q) {
      forall f: (Element, Element) -> Element, x: Tensor, b: Tensor | x.WellFormed() && x.shape == s && Fits(b, q)
        ensures TargetKept(f, x, t, b, q)
      {
        InOrderKept(f, x, b, q);
      }
    }
    if TargetPreserved(s, t, q) {
      var f := (a: Element, c: Element) => a;
      assert Fits(Zeros(Ones(|q|)), q);
      assert TargetKept(f, Zeros(s), t, Zeros(Ones(|q|)), q);
      TargetShape(f, s, t, q);
      if Positive(s) {
        TargetKeepsOrder(s, t, q);
      }
    }
  }

  /** Nothing is widened to its own rank. */
  lemma WidenedSame(x: Tensor)
    requires x.WellFormed()
    ensures Widened(x, |x.shape|) == x
  {
    hide Widened;
    var w := Widened(x, |x.shape|);
    forall i | InBounds(i, x.shape) ensures SameAt(w, x, i) {
      WidenedAt(x, |x.shape|, i);
      assert i[0..] == i;
    }
    SameTensor(w, x);
  }

  /** ... and a matrix under an order that swaps the last two of three axes is not. */
  lemma MatricesLost(a: nat, b: nat)
    requires a > 1 && b > 1
    ensures Orders([0, 2, 1], [0, 2, 1]) && InRange(Inverse([0, 2, 1])) && !ReshapePreserved([a, b], [0, 2, 1])
  {
    var q: Order := [0, 2, 1];
    InversesMatch(q, q);
    assert Extend([a, b], 3) == [1, a, b];
    assert Inverse(q) == q;
    ReshapePreservedIff([a, b], q);
    assert q[1] > q[2];
  }
}
