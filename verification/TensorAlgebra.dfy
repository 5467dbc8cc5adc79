/** Permutations of axes, tensors as index functions, and how transposition commutes with other operations. */
module TensorAlgebra {

  // ---------- permutations ----------

  type Order = seq<nat>

  /** out[k] = s[order[k]] */
  function Apply<T>(s: seq<T>, order: Order): (r: seq<T>)
    requires forall k :: 0 <= k < |order| ==> order[k] < |s|
    ensures |r| == |order|
  {
    seq(|order|, k requires 0 <= k < |order| => s[order[k]])
  }

  function Default(n: nat): (r: Order)
    ensures |r| == n && forall k :: 0 <= k < n ==> r[k] == k
  {
    seq(n, k => k)
  }

  /** The first position of j from k on, |p| if there is none. */
  function Position(p: Order, j: nat, k: nat): (r: nat)
    requires k <= |p|
    ensures k <= r <= |p|
    decreases |p| - k
  {
    if k == |p| || p[k] == j then k else Position(p, j, k + 1)
  }

  lemma {:induction false} PositionFinds(p: Order, j: nat, k: nat)
    requires k <= |p|
    ensures var r := Position(p, j, k); (r < |p| ==> p[r] == j) && forall i :: k <= i < r ==> p[i] != j
    decreases |p| - k
  {
    if k < |p| && p[k] != j {
      PositionFinds(p, j, k + 1);
    }
  }

  predicate InRange(p: Order) {
    forall k :: 0 <= k < |p| ==> p[k] < |p|
  }

  /** The order that undoes p. */
  function Inverse(p: Order): (r: Order)
    ensures |r| == |p|
  {
    seq(|p|, j requires 0 <= j < |p| => Position(p, j, 0))
  }

  ghost predicate Inverts(p: Order, q: Order) {
    && |p| == |q| && InRange(p) && InRange(q)
    && (forall k {:trigger q[p[k]]} :: 0 <= k < |p| ==> q[p[k]] == k)
    && (forall k {:trigger p[q[k]]} :: 0 <= k < |p| ==> p[q[k]] == k)
  }

  ghost predicate IsPermutation(p: Order) {
    Inverts(p, Inverse(p))
  }

  /** Two orders that undo each other are permutations, each the inverse of the other. */
  lemma InversesMatch(p: Order, q: Order)
    requires Inverts(p, q)
    ensures IsPermutation(p) && Inverse(p) == q
    ensures IsPermutation(q) && Inverse(q) == p
  {
    forall j | 0 <= j < |p|
      ensures Inverse(p)[j] == q[j] && Inverse(q)[j] == p[j]
    {
      assert p[q[j]] == j && q[p[j]] == j;
      var k, m := Position(p, j, 0), Position(q, j, 0);
      PositionFinds(p, j, 0);
      PositionFinds(q, j, 0);
      assert k < |p| ==> q[p[k]] == k;
      assert m < |q| ==> p[q[m]] == m;
    }
    assert Inverse(p) == q && Inverse(q) == p;
  }

  lemma InverseIsPermutation(p: Order)
    requires IsPermutation(p)
    ensures IsPermutation(Inverse(p)) && Inverse(Inverse(p)) == p
  {
    InversesMatch(p, Inverse(p));
  }

  lemma DefaultIsPermutation(n: nat)
    ensures IsPermutation(Default(n)) && Inverse(Default(n)) == Default(n)
  {
    InversesMatch(Default(n), Default(n));
  }

  /** First p, then q. */
  lemma ComposeIsPermutation(p: Order, q: Order)
    requires IsPermutation(p) && IsPermutation(q) && |p| == |q|
    ensures IsPermutation(Apply(p, q)) && Inverse(Apply(p, q)) == Apply(Inverse(q), Inverse(p))
  {
    var r, s := Apply(p, q), Apply(Inverse(q), Inverse(p));
    forall k | 0 <= k < |r|
      ensures r[k] < |r| && s[k] < |s| && s[r[k]] == k && r[s[k]] == k
    {
      assert r[k] == p[q[k]] && s[k] == Inverse(q)[Inverse(p)[k]];
      assert s[r[k]] == Inverse(q)[Inverse(p)[p[q[k]]]];
      assert r[s[k]] == p[q[Inverse(q)[Inverse(p)[k]]]];
    }
    InversesMatch(r, s);
  }

  lemma ApplyInverse<T>(s: seq<T>, p: Order)
    requires IsPermutation(p) && |s| == |p|
    ensures Apply(Apply(s, p), Inverse(p)) == s
    ensures Apply(Apply(s, Inverse(p)), p) == s
  {
  }

  lemma InverseThenOrder(p: Order)
    requires IsPermutation(p)
    ensures Apply(Inverse(p), p) == Default(|p|) && Apply(p, Inverse(p)) == Default(|p|)
  {
  }

  // ---------- tensors ----------

  /** Operations on elements are arbitrary functions, so the type of the elements does not matter. */
  type Element = int

  type Shape = seq<nat>
  type Index = seq<int>

  datatype Tensor = Tensor(shape: Shape, at: imap<Index, Element>)
  {
    ghost predicate WellFormed() {
      at.Keys == Indices(shape)
    }

    ghost function Get(i: Index): Element {
      if i in at then at[i] else 0
    }
  }

  ghost predicate InBounds(i: Index, shape: Shape) {
    |i| == |shape| && forall k :: 0 <= k < |i| ==> 0 <= i[k] < shape[k]
  }

  ghost function Indices(shape: Shape): iset<Index> {
    iset i | InBounds(i, shape)
  }

  ghost function Build(shape: Shape, f: Index -> Element): (r: Tensor)
    ensures r.WellFormed() && r.shape == shape
  {
    Tensor(shape, imap i | InBounds(i, shape) :: f(i))
  }

  lemma BuildAt(shape: Shape, f: Index -> Element, i: Index)
    requires InBounds(i, shape)
    ensures Build(shape, f).Get(i) == f(i)
  {
  }

  ghost predicate SameAt(a: Tensor, b: Tensor, i: Index) {
    a.Get(i) == b.Get(i)
  }

  lemma SameTensor(a: Tensor, b: Tensor)
    requires a.WellFormed() && b.WellFormed() && a.shape == b.shape
    requires forall i :: InBounds(i, a.shape) ==> SameAt(a, b, i)
    ensures a == b
  {
    forall i | i in a.at ensures a.at[i] == b.at[i] {
      assert InBounds(i, a.shape);
      assert SameAt(a, b, i);
    }
    assert a.at == b.at;
  }

  // ---------- transposition ----------

  /** The index in the argument of a transposition. */
  ghost function Back(i: Index, p: Order): Index
    requires IsPermutation(p) && |i| == |p|
  {
    Apply(i, Inverse(p))
  }

  ghost function Permute(x: Tensor, p: Order): (r: Tensor)
    requires IsPermutation(p) && |p| == |x.shape|
    ensures r.WellFormed() && r.shape == Apply(x.shape, p)
  {
    Build(Apply(x.shape, p), (i: Index) => if |i| == |p| then x.Get(Back(i, p)) else 0)
  }

  lemma PermuteAt(x: Tensor, p: Order, i: Index)
    requires IsPermutation(p) && |p| == |x.shape| && InBounds(i, Apply(x.shape, p))
    ensures Permute(x, p).Get(i) == x.Get(Back(i, p))
  {
    BuildAt(Apply(x.shape, p), (i: Index) => if |i| == |p| then x.Get(Back(i, p)) else 0, i);
  }

  lemma BackInBounds(i: Index, shape: Shape, p: Order)
    requires IsPermutation(p) && |p| == |shape| == |i|
    ensures InBounds(i, Apply(shape, p)) <==> InBounds(Back(i, p), shape)
  {
    var b := Back(i, p);
    if InBounds(i, Apply(shape, p)) {
      forall k | 0 <= k < |b| ensures 0 <= b[k] < shape[k] {
        assert b[k] == i[Inverse(p)[k]] && Apply(shape, p)[Inverse(p)[k]] == shape[k];
      }
    }
    if InBounds(b, shape) {
      forall k | 0 <= k < |i| ensures 0 <= i[k] < Apply(shape, p)[k] {
        assert b[p[k]] == i[k];
      }
    }
  }

  lemma BackBack(i: Index, p: Order, q: Order)
    requires IsPermutation(p) && IsPermutation(q) && |p| == |q| == |i|
    ensures IsPermutation(Apply(p, q)) && Back(i, Apply(p, q)) == Back(Back(i, q), p)
  {
    ComposeIsPermutation(p, q);
  }

  lemma ApplyTwice<T>(s: seq<T>, p: Order, q: Order)
    requires IsPermutation(p) && IsPermutation(q) && |p| == |q| == |s|
    ensures IsPermutation(Apply(p, q)) && Apply(Apply(s, p), q) == Apply(s, Apply(p, q))
  {
    ComposeIsPermutation(p, q);
  }

  lemma PermuteTwiceAt(x: Tensor, p: Order, q: Order, r: Order, a: Tensor, b: Tensor, i: Index)
    requires IsPermutation(p) && IsPermutation(q) && IsPermutation(r) && |p| == |q| == |r| == |x.shape|
    requires r == Apply(p, q)
    requires a == Permute(Permute(x, p), q) && b == Permute(x, r)
    requires InBounds(i, a.shape)
    ensures SameAt(a, b, i)
  {
    hide Permute;
    ApplyTwice(x.shape, p, q);
    BackInBounds(i, Apply(x.shape, p), q);
    BackBack(i, p, q);
    PermuteAt(Permute(x, p), q, i);
    PermuteAt(x, p, Back(i, q));
    PermuteAt(x, r, i);
  }

  lemma PermuteTwiceVia(x: Tensor, p: Order, q: Order, r: Order, a: Tensor, b: Tensor)
    requires IsPermutation(p) && IsPermutation(q) && IsPermutation(r) && |p| == |q| == |r| == |x.shape|
    requires r == Apply(p, q)
    requires a == Permute(Permute(x, p), q) && b == Permute(x, r)
    ensures a == b
  {
    hide *;
    ApplyTwice(x.shape, p, q);
    forall i | InBounds(i, a.shape) ensures SameAt(a, b, i) {
      PermuteTwiceAt(x, p, q, r, a, b, i);
    }
    SameTensor(a, b);
  }

  /** Two transpositions are one. */
  lemma PermuteTwice(x: Tensor, p: Order, q: Order)
    requires IsPermutation(p) && IsPermutation(q) && |p| == |q| == |x.shape|
    ensures IsPermutation(Apply(p, q)) && Permute(Permute(x, p), q) == Permute(x, Apply(p, q))
  {
    ApplyTwice(x.shape, p, q);
    hide Permute;
    PermuteTwiceVia(x, p, q, Apply(p, q), Permute(Permute(x, p), q), Permute(x, Apply(p, q)));
  }

  lemma PermuteDefault(x: Tensor, n: nat)
    requires x.WellFormed() && |x.shape| == n
    ensures IsPermutation(Default(n)) && Permute(x, Default(n)) == x
  {
    DefaultIsPermutation(n);
    hide Permute;
    var a := Permute(x, Default(n));
    assert a.shape == x.shape;
    forall i | InBounds(i, a.shape) ensures SameAt(a, x, i) {
      PermuteAt(x, Default(n), i);
      assert Back(i, Default(n)) == i;
    }
    SameTensor(a, x);
  }

  lemma PermuteBackIsDefault(x: Tensor, p: Order)
    requires IsPermutation(p) && |p| == |x.shape| && IsPermutation(Inverse(p))
    ensures IsPermutation(Default(|p|)) && Permute(Permute(x, Inverse(p)), p) == Permute(x, Default(|p|))
  {
    PermuteTwice(x, Inverse(p), p);
    InverseThenOrder(p);
    DefaultIsPermutation(|p|);
  }

  /** Transposing there and back changes nothing. */
  lemma PermuteBack(x: Tensor, p: Order)
    requires x.WellFormed() && IsPermutation(p) && |p| == |x.shape|
    ensures IsPermutation(Inverse(p)) && Permute(Permute(x, Inverse(p)), p) == x
  {
    hide Permute;
    InverseIsPermutation(p);
    PermuteBackIsDefault(x, p);
    PermuteDefault(x, |p|);
  }

  // ---------- elementwise operations ----------

  ghost function Map(f: Element -> Element, x: Tensor): (r: Tensor)
    ensures r.WellFormed() && r.shape == x.shape
  {
    Build(x.shape, (i: Index) => f(x.Get(i)))
  }

  lemma MapAt(f: Element -> Element, x: Tensor, i: Index)
    requires InBounds(i, x.shape)
    ensures Map(f, x).Get(i) == f(x.Get(i))
  {
    BuildAt(x.shape, (i: Index) => f(x.Get(i)), i);
  }

  lemma MapPermute(f: Element -> Element, x: Tensor, p: Order)
    requires IsPermutation(p) && |p| == |x.shape|
    ensures Map(f, Permute(x, p)) == Permute(Map(f, x), p)
  {
    hide Map, Permute;
    var a, b := Map(f, Permute(x, p)), Permute(Map(f, x), p);
    forall i | InBounds(i, a.shape) ensures SameAt(a, b, i) {
      BackInBounds(i, x.shape, p);
      MapAt(f, Permute(x, p), i);
      PermuteAt(x, p, i);
      PermuteAt(Map(f, x), p, i);
      MapAt(f, x, Back(i, p));
    }
    SameTensor(a, b);
  }

  /** Broadcasting: missing leading axes and axes of length 1 stretch. */
  function Extend(s: Shape, n: nat): (r: Shape)
    ensures |r| == if |s| < n then n else |s|
    ensures |s| >= n ==> r == s
  {
    if |s| < n then seq(n - |s|, _ => 1) + s else s
  }

  function Max(a: nat, b: nat): nat {
    if a < b then b else a
  }

  function Stretched(s: Shape, t: Shape): (r: Shape)
    requires |s| == |t|
    ensures |r| == |s| && forall k :: 0 <= k < |s| ==> r[k] == if s[k] == 1 then t[k] else s[k]
  {
    seq(|s|, k requires 0 <= k < |s| => if s[k] == 1 then t[k] else s[k])
  }

  function BroadcastShape(s: Shape, t: Shape): (r: Shape)
    ensures |r| == Max(|s|, |t|)
  {
    Stretched(Extend(s, |t|), Extend(t, |s|))
  }

  /** The index into an argument of the given shape. */
  function Shrunk(i: Index, s: Shape): (r: Index)
    requires |i| >= |s|
    ensures |r| == |s| && forall k :: 0 <= k < |s| ==> r[k] == if s[k] == 1 then 0 else i[|i| - |s| + k]
  {
    seq(|s|, k requires 0 <= k < |s| => if s[k] == 1 then 0 else i[|i| - |s| + k])
  }

  ghost function ZipElement(f: (Element, Element) -> Element, x: Tensor, y: Tensor, i: Index): Element {
    if |i| >= |x.shape| && |i| >= |y.shape| then f(x.Get(Shrunk(i, x.shape)), y.Get(Shrunk(i, y.shape))) else 0
  }

  ghost function Zip(f: (Element, Element) -> Element, x: Tensor, y: Tensor): (r: Tensor)
    ensures r.WellFormed() && r.shape == BroadcastShape(x.shape, y.shape)
  {
    Build(BroadcastShape(x.shape, y.shape), (i: Index) => ZipElement(f, x, y, i))
  }

  lemma ZipAt(f: (Element, Element) -> Element, x: Tensor, y: Tensor, i: Index)
    requires InBounds(i, BroadcastShape(x.shape, y.shape))
    ensures Zip(f, x, y).Get(i) == ZipElement(f, x, y, i)
  {
    BuildAt(BroadcastShape(x.shape, y.shape), (i: Index) => ZipElement(f, x, y, i), i);
  }

  lemma ShrunkBack(i: Index, s: Shape, p: Order)
    requires IsPermutation(p) && |p| == |s| == |i|
    ensures Shrunk(Back(i, p), s) == Back(Shrunk(i, Apply(s, p)), p)
  {
    var a, b := Shrunk(Back(i, p), s), Back(Shrunk(i, Apply(s, p)), p);
    forall k | 0 <= k < |s| ensures a[k] == b[k] {
      var j := Inverse(p)[k];
      assert p[j] == k && Apply(s, p)[j] == s[k] && Back(i, p)[k] == i[j];
    }
  }

  lemma StretchedPermute(s: Shape, t: Shape, p: Order)
    requires IsPermutation(p) && |p| == |s| == |t|
    ensures Apply(BroadcastShape(s, t), p) == BroadcastShape(Apply(s, p), Apply(t, p))
  {
  }

  /** A permuted tensor at a stretched index; both sides may lie outside when the shapes do not fit. */
  lemma GetPermuted(x: Tensor, p: Order, i: Index)
    requires x.WellFormed() && IsPermutation(p) && |p| == |x.shape| == |i|
    ensures Permute(x, p).Get(i) == x.Get(Back(i, p))
  {
    hide Permute;
    BackInBounds(i, x.shape, p);
    var y := Permute(x, p);
    assert i in y.at.Keys <==> InBounds(i, y.shape);
    assert Back(i, p) in x.at.Keys <==> InBounds(Back(i, p), x.shape);
    if InBounds(i, y.shape) {
      PermuteAt(x, p, i);
    }
  }

  lemma ZipPermute(f: (Element, Element) -> Element, x: Tensor, y: Tensor, p: Order)
    requires x.WellFormed() && y.WellFormed()
    requires IsPermutation(p) && |p| == |x.shape| == |y.shape|
    ensures Zip(f, Permute(x, p), Permute(y, p)) == Permute(Zip(f, x, y), p)
  {
    hide Zip, Permute;
    var a, b := Zip(f, Permute(x, p), Permute(y, p)), Permute(Zip(f, x, y), p);
    StretchedPermute(x.shape, y.shape, p);
    forall i | InBounds(i, a.shape) ensures SameAt(a, b, i) {
      BackInBounds(i, BroadcastShape(x.shape, y.shape), p);
      ShrunkBack(i, x.shape, p);
      ShrunkBack(i, y.shape, p);
      GetPermuted(x, p, Shrunk(i, Apply(x.shape, p)));
      GetPermuted(y, p, Shrunk(i, Apply(y.shape, p)));
      ZipAt(f, Permute(x, p), Permute(y, p), i);
      PermuteAt(Zip(f, x, y), p, i);
      ZipAt(f, x, y, Back(i, p));
    }
    SameTensor(a, b);
  }

  // ---------- padding ----------

  datatype PadMode = Constant | Edge | Reflect | Symmetric

  datatype Option<T> = None | Some(value: T)

  /** Where position k of a padded axis of the given length comes from. */
  function PadSource(mode: PadMode, k: int, length: nat): Option<int> {
    if 0 <= k < length then Some(k)
    else match mode
      case Constant => None
      case Edge => Some(if k < 0 then 0 else length - 1)
      case Reflect => Some(if k < 0 then -k else 2 * (length - 1) - k)
      case Symmetric => Some(if k < 0 then -k - 1 else 2 * length - 1 - k)
  }

  function PadShape(s: Shape, begin: seq<int>, end: seq<int>): (r: Shape)
    requires |begin| == |end| == |s|
    ensures |r| == |s|
    ensures forall k :: 0 <= k < |s| ==> r[k] == if begin[k] + s[k] + end[k] < 0 then 0 else begin[k] + s[k] + end[k]
  {
    seq(|s|, k requires 0 <= k < |s| => if begin[k] + s[k] + end[k] < 0 then 0 else begin[k] + s[k] + end[k])
  }

  function PadSources(mode: PadMode, i: Index, s: Shape, begin: seq<int>): (r: seq<Option<int>>)
    requires |i| == |s| == |begin|
    ensures |r| == |s| && forall k :: 0 <= k < |s| ==> r[k] == PadSource(mode, i[k] - begin[k], s[k])
  {
    seq(|s|, k requires 0 <= k < |s| => PadSource(mode, i[k] - begin[k], s[k]))
  }

  /** The element at the sources, or the filling if some axis has none. */
  ghost function PadAt(x: Tensor, sources: seq<Option<int>>, filling: Element): Element {
    if forall k :: 0 <= k < |sources| ==> sources[k].Some?
    then x.Get(seq(|sources|, k requires 0 <= k < |sources| => if sources[k].Some? then sources[k].value else 0))
    else filling
  }

  ghost function PadElement(mode: PadMode, x: Tensor, begin: seq<int>, filling: Element, i: Index): Element
    requires |begin| == |x.shape|
  {
    if |i| == |x.shape| then PadAt(x, PadSources(mode, i, x.shape, begin), filling) else 0
  }

  ghost function PadTensor(mode: PadMode, x: Tensor, begin: seq<int>, end: seq<int>, filling: Element): (r: Tensor)
    requires |begin| == |end| == |x.shape|
    ensures r.WellFormed() && r.shape == PadShape(x.shape, begin, end)
  {
    Build(PadShape(x.shape, begin, end), (i: Index) => PadElement(mode, x, begin, filling, i))
  }

  lemma PadTensorAt(mode: PadMode, x: Tensor, begin: seq<int>, end: seq<int>, filling: Element, i: Index)
    requires |begin| == |end| == |x.shape| && InBounds(i, PadShape(x.shape, begin, end))
    ensures PadTensor(mode, x, begin, end, filling).Get(i) == PadAt(x, PadSources(mode, i, x.shape, begin), filling)
  {
    BuildAt(PadShape(x.shape, begin, end), (i: Index) => PadElement(mode, x, begin, filling, i), i);
  }

  lemma PadAtPermuted(x: Tensor, p: Order, sources: seq<Option<int>>, filling: Element)
    requires x.WellFormed() && IsPermutation(p) && |p| == |x.shape| == |sources|
    ensures PadAt(Permute(x, p), sources, filling) == PadAt(x, Apply(sources, Inverse(p)), filling)
  {
    hide Permute;
    var back := Apply(sources, Inverse(p));
    if forall k :: 0 <= k < |sources| ==> sources[k].Some? {
      forall k | 0 <= k < |back| ensures back[k].Some? { }
      var i := seq(|sources|, k requires 0 <= k < |sources| => if sources[k].Some? then sources[k].value else 0);
      var j := seq(|back|, k requires 0 <= k < |back| => if back[k].Some? then back[k].value else 0);
      assert Back(i, p) == j;
      GetPermuted(x, p, i);
    } else {
      var k :| 0 <= k < |sources| && sources[k].None?;
      assert back[p[k]] == sources[k];
    }
  }

  lemma PadShapePermuted(s: Shape, begin: seq<int>, end: seq<int>, p: Order)
    requires IsPermutation(p) && |p| == |s| == |begin| == |end|
    ensures PadShape(Apply(s, p), begin, end) == Apply(PadShape(s, Apply(begin, Inverse(p)), Apply(end, Inverse(p))), p)
  {
    ApplyInverse(begin, p);
    ApplyInverse(end, p);
  }

  lemma PadSourcesPermuted(mode: PadMode, i: Index, s: Shape, begin: seq<int>, p: Order)
    requires IsPermutation(p) && |p| == |s| == |begin| == |i|
    ensures Apply(PadSources(mode, i, Apply(s, p), begin), Inverse(p))
         == PadSources(mode, Back(i, p), s, Apply(begin, Inverse(p)))
  {
    var a := Apply(PadSources(mode, i, Apply(s, p), begin), Inverse(p));
    var b := PadSources(mode, Back(i, p), s, Apply(begin, Inverse(p)));
    forall k | 0 <= k < |s| ensures a[k] == b[k] {
      var j := Inverse(p)[k];
      assert Apply(s, p)[j] == s[k];
    }
  }

  /** Padding a transposed tensor is transposing the tensor padded by the amounts moved back. */
  lemma PadPermute(mode: PadMode, x: Tensor, begin: seq<int>, end: seq<int>, filling: Element, p: Order)
    requires x.WellFormed() && IsPermutation(p) && |p| == |x.shape| == |begin| == |end|
    ensures PadTensor(mode, Permute(x, p), begin, end, filling)
         == Permute(PadTensor(mode, x, Apply(begin, Inverse(p)), Apply(end, Inverse(p)), filling), p)
  {
    hide PadTensor, Permute, PadAt;
    var inner := PadTensor(mode, x, Apply(begin, Inverse(p)), Apply(end, Inverse(p)), filling);
    var a, b := PadTensor(mode, Permute(x, p), begin, end, filling), Permute(inner, p);
    PadShapePermuted(x.shape, begin, end, p);
    forall i | InBounds(i, a.shape) ensures SameAt(a, b, i) {
      BackInBounds(i, inner.shape, p);
      PadAtPermuted(x, p, PadSources(mode, i, Apply(x.shape, p), begin), filling);
      PadSourcesPermuted(mode, i, x.shape, begin, p);
      PadTensorAt(mode, Permute(x, p), begin, end, filling, i);
      PermuteAt(inner, p, i);
      PadTensorAt(mode, x, Apply(begin, Inverse(p)), Apply(end, Inverse(p)), filling, Back(i, p));
    }
    SameTensor(a, b);
  }

  // ---------- concatenation ----------

  function Total(xs: seq<Tensor>, axis: nat): nat {
    if xs == [] then 0 else (if axis < |xs[0].shape| then xs[0].shape[axis] else 0) + Total(xs[1..], axis)
  }

  /** The element at index i of the concatenation. */
  ghost function ConcatAt(xs: seq<Tensor>, axis: nat, i: Index): Element
    requires axis < |i|
  {
    if xs == [] || axis >= |xs[0].shape| then 0
    else if i[axis] < xs[0].shape[axis] then xs[0].Get(i)
    else ConcatAt(xs[1..], axis, i[axis := i[axis] - xs[0].shape[axis]])
  }

  ghost function ConcatElement(xs: seq<Tensor>, axis: nat, i: Index): Element {
    if axis < |i| then ConcatAt(xs, axis, i) else 0
  }

  ghost function ConcatTensor(xs: seq<Tensor>, axis: nat): (r: Tensor)
    requires xs != [] && axis < |xs[0].shape|
    ensures r.WellFormed() && r.shape == xs[0].shape[axis := Total(xs, axis)]
  {
    Build(xs[0].shape[axis := Total(xs, axis)], (i: Index) => ConcatElement(xs, axis, i))
  }

  lemma ConcatTensorAt(xs: seq<Tensor>, axis: nat, i: Index)
    requires xs != [] && axis < |xs[0].shape| && InBounds(i, xs[0].shape[axis := Total(xs, axis)])
    ensures ConcatTensor(xs, axis).Get(i) == ConcatAt(xs, axis, i)
  {
    BuildAt(xs[0].shape[axis := Total(xs, axis)], (i: Index) => ConcatElement(xs, axis, i), i);
  }

  ghost predicate AllRank(xs: seq<Tensor>, n: nat) {
    forall j :: 0 <= j < |xs| ==> xs[j].WellFormed() && |xs[j].shape| == n
  }

  ghost function PermuteAll(xs: seq<Tensor>, p: Order): (r: seq<Tensor>)
    requires IsPermutation(p) && AllRank(xs, |p|)
    ensures |r| == |xs| && forall j :: 0 <= j < |xs| ==> r[j] == Permute(xs[j], p)
  {
    seq(|xs|, j requires 0 <= j < |xs| => Permute(xs[j], p))
  }

  lemma {:induction false} TotalPermuted(xs: seq<Tensor>, p: Order, axis: nat)
    requires IsPermutation(p) && AllRank(xs, |p|) && axis < |p|
    ensures Total(PermuteAll(xs, p), axis) == Total(xs, p[axis])
  {
    if xs != [] {
      PermuteAllTail(xs, p);
      TotalPermuted(xs[1..], p, axis);
    }
  }

  lemma BackUpdate(i: Index, p: Order, axis: nat, v: int)
    requires IsPermutation(p) && axis < |p| == |i|
    ensures Back(i, p)[p[axis]] == i[axis]
    ensures Back(i[axis := v], p) == Back(i, p)[p[axis] := v]
  {
    var a, b := Back(i[axis := v], p), Back(i, p)[p[axis] := v];
    forall k | 0 <= k < |p| ensures a[k] == b[k] {
      var j := Inverse(p)[k];
      assert p[j] == k && (j == axis <==> k == p[axis]);
    }
  }

  lemma PermuteAllTail(xs: seq<Tensor>, p: Order)
    requires xs != [] && IsPermutation(p) && AllRank(xs, |p|)
    ensures AllRank(xs[1..], |p|) && PermuteAll(xs, p)[1..] == PermuteAll(xs[1..], p)
  {
  }

  lemma ConcatAtUnfold(xs: seq<Tensor>, axis: nat, i: Index)
    requires xs != [] && axis < |xs[0].shape| == |i|
    ensures ConcatAt(xs, axis, i) ==
            if i[axis] < xs[0].shape[axis] then xs[0].Get(i)
            else ConcatAt(xs[1..], axis, i[axis := i[axis] - xs[0].shape[axis]])
  {
  }

  lemma {:induction false} ConcatAtPermuted(xs: seq<Tensor>, p: Order, axis: nat, i: Index)
    requires IsPermutation(p) && AllRank(xs, |p|) && axis < |p| == |i|
    ensures ConcatAt(PermuteAll(xs, p), axis, i) == ConcatAt(xs, p[axis], Back(i, p))
    decreases xs
  {
    if xs != [] {
      var length := xs[0].shape[p[axis]];
      var rest := i[axis := i[axis] - length];
      BackUpdate(i, p, axis, i[axis] - length);
      PermuteAllTail(xs, p);
      GetPermuted(xs[0], p, i);
      ConcatAtUnfold(PermuteAll(xs, p), axis, i);
      ConcatAtUnfold(xs, p[axis], Back(i, p));
      ConcatAtPermuted(xs[1..], p, axis, rest);
    }
  }

  lemma ConcatShapePermuted(s: Shape, p: Order, axis: nat, total: nat)
    requires IsPermutation(p) && axis < |p| == |s|
    ensures Apply(s, p)[axis := total] == Apply(s[p[axis] := total], p)
  {
    forall k | 0 <= k < |p| ensures p[k] == p[axis] <==> k == axis {
      assert Inverse(p)[p[k]] == k && Inverse(p)[p[axis]] == axis;
    }
  }

  /** Concatenating transposed tensors is transposing the concatenation along the axis moved back. */
  lemma ConcatPermute(xs: seq<Tensor>, p: Order, axis: nat)
    requires xs != [] && IsPermutation(p) && AllRank(xs, |p|) && axis < |p|
    ensures ConcatTensor(PermuteAll(xs, p), axis) == Permute(ConcatTensor(xs, p[axis]), p)
  {
    hide ConcatTensor, Permute, ConcatAt;
    var inner := ConcatTensor(xs, p[axis]);
    var a, b := ConcatTensor(PermuteAll(xs, p), axis), Permute(inner, p);
    TotalPermuted(xs, p, axis);
    ConcatShapePermuted(xs[0].shape, p, axis, Total(xs, p[axis]));
    forall i | InBounds(i, a.shape) ensures SameAt(a, b, i) {
      BackInBounds(i, inner.shape, p);
      ConcatAtPermuted(xs, p, axis, i);
      ConcatTensorAt(PermuteAll(xs, p), axis, i);
      PermuteAt(inner, p, i);
      ConcatTensorAt(xs, p[axis], Back(i, p));
    }
    SameTensor(a, b);
  }
}
