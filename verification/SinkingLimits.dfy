/** Where the pass goes wrong: each case with the exact condition under which it does not. */
module SinkingLimits {
  import opened TensorAlgebra

  // ---------- binary operations ----------

  ghost predicate Fits(x: Tensor, p: Order) {
    x.WellFormed() && |x.shape| == |p|
  }

  ghost predicate Orders(p: Order, q: Order) {
    IsPermutation(p) && IsPermutation(q) && IsPermutation(Inverse(p)) && IsPermutation(Inverse(q)) && |p| == |q|
  }

  /** What the operation computes before the pass, its inputs being found with orders p and q. */
  ghost function BinaryBefore(f: (Element, Element) -> Element, p: Order, q: Order, a: Tensor, b: Tensor): Tensor
    requires Orders(p, q) && Fits(a, p) && Fits(b, q)
  {
    Zip(f, Permute(a, p), Permute(b, q))
  }

  predicate Moved(p: Order) {
    p != Default(|p|)
  }

  /** What its output and pending order stand for after sink_binary. */
  ghost function BinaryAfter(f: (Element, Element) -> Element, p: Order, q: Order, a: Tensor, b: Tensor): Tensor
    requires Orders(p, q) && Fits(a, p) && Fits(b, q)
  {
    if p == q then Permute(Zip(f, a, b), p)
    else
      var a' := if Moved(q) then Permute(a, Inverse(q)) else a;
      var b' := if Moved(p) then Permute(b, Inverse(p)) else b;
      Permute(Zip(f, a', b'), if Moved(p) then p else q)
  }

  ghost predicate BinaryPreserved(p: Order, q: Order)
    requires Orders(p, q)
  {
    forall f: (Element, Element) -> Element, a: Tensor, b: Tensor :: Fits(a, p) && Fits(b, q) ==>
        BinaryAfter(f, p, q, a, b) == BinaryBefore(f, p, q, a, b)
  }

  lemma BinaryKept(f: (Element, Element) -> Element, p: Order, q: Order, a: Tensor, b: Tensor)
    requires Orders(p, q) && Fits(a, p) && Fits(b, q) && (p == q || !Moved(p) || !Moved(q))
    ensures BinaryAfter(f, p, q, a, b) == BinaryBefore(f, p, q, a, b)
  {
    hide Zip, Permute, IsPermutation;
    if p == q {
      ZipPermute(f, a, b, p);
    } else if Moved(q) {
      PermuteDefault(a, |p|);
      ConvertedKept(f, q, a, b);
    } else {
      PermuteDefault(b, |q|);
      ConvertedKeptLeft(f, p, a, b);
    }
  }

  lemma ConvertedKept(f: (Element, Element) -> Element, q: Order, a: Tensor, b: Tensor)
    requires Orders(q, q) && Fits(a, q) && Fits(b, q)
    ensures Zip(f, a, Permute(b, q)) == Permute(Zip(f, Permute(a, Inverse(q)), b), q)
  {
    hide Zip, Permute, IsPermutation;
    PermuteBack(a, q);
    ZipPermute(f, Permute(a, Inverse(q)), b, q);
  }

  lemma ConvertedKeptLeft(f: (Element, Element) -> Element, p: Order, a: Tensor, b: Tensor)
    requires Orders(p, p) && Fits(a, p) && Fits(b, p)
    ensures Zip(f, Permute(a, p), b) == Permute(Zip(f, a, Permute(b, Inverse(p))), p)
  {
    hide Zip, Permute, IsPermutation;
    PermuteBack(b, p);
    ZipPermute(f, a, Permute(b, Inverse(p)), p);
  }

  /** A tensor whose axes have all different lengths, and one that stretches to any shape. */
  function Distinct(n: nat): (r: Shape)
    ensures |r| == n && forall k :: 0 <= k < n ==> r[k] == k + 2
  {
    seq(n, k => k + 2)
  }

  function Ones(n: nat): (r: Shape)
    ensures |r| == n && forall k :: 0 <= k < n ==> r[k] == 1
  {
    seq(n, _ => 1)
  }

  ghost function Zeros(s: Shape): (r: Tensor)
    ensures r.WellFormed() && r.shape == s
  {
    Build(s, (_: Index) => 0)
  }

  lemma PermutationInRange(p: Order)
    requires IsPermutation(p)
    ensures InRange(p) && InRange(Inverse(p))
  {
  }

  /** Two different orders that both move axes: already the shape comes out wrong. */
  lemma TwoOrdersLose(f: (Element, Element) -> Element, p: Order, q: Order, a: Tensor, b: Tensor)
    requires Orders(p, q) && p != q && Moved(p) && Moved(q) && Fits(a, p) && Fits(b, q)
    requires a.shape == Ones(|p|) && b.shape == Distinct(|p|)
    ensures BinaryAfter(f, p, q, a, b).shape != BinaryBefore(f, p, q, a, b).shape
  {
    PermutationInRange(p);
    PermutationInRange(q);
    hide Zip, Permute, IsPermutation, Inverse, Default, BroadcastShape;
    var n := |p|;
    OnesStay(n, p);
    OnesStay(n, Inverse(q));
    Restored(n, p);
    Stretches(Apply(Distinct(n), q));
    Stretches(Apply(Distinct(n), Inverse(p)));
    DistinctMoves(n, q);
  }

  lemma Restored(n: nat, p: Order)
    requires IsPermutation(p) && |p| == n && InRange(Inverse(p))
    ensures Apply(Apply(Distinct(n), Inverse(p)), p) == Distinct(n)
  {
    ApplyInverse(Distinct(n), p);
  }

  lemma OnesStay(n: nat, p: Order)
    requires |p| == n && InRange(p)
    ensures Apply(Ones(n), p) == Ones(n)
  {
  }

  lemma Stretches(s: Shape)
    ensures BroadcastShape(Ones(|s|), s) == s
  {
  }

  lemma DistinctMoves(n: nat, q: Order)
    requires |q| == n && InRange(q)
    ensures Apply(Distinct(n), q) == Distinct(n) ==> !Moved(q)
  {
    if Apply(Distinct(n), q) == Distinct(n) {
      forall k | 0 <= k < n ensures q[k] == k {
        assert Apply(Distinct(n), q)[k] == q[k] + 2;
      }
      assert q == Default(n);
    }
  }

  lemma BinaryLost(p: Order, q: Order)
    requires Orders(p, q) && p != q && Moved(p) && Moved(q)
    ensures !BinaryPreserved(p, q)
  {
    hide BinaryAfter, BinaryBefore, IsPermutation, Zeros, Ones, Distinct;
    var f := (x: Element, y: Element) => x;
    var a, b := Zeros(Ones(|p|)), Zeros(Distinct(|p|));
    assert Fits(a, p) && Fits(b, q);
    TwoOrdersLose(f, p, q, a, b);
  }

  /**
   On inputs of equal rank, sink_binary keeps the meaning of every operation unless two different orders both
   move axes.
   */
  lemma BinaryPreservedIff(p: Order, q: Order)
    requires Orders(p, q)
    ensures BinaryPreserved(p, q) <==> (p == q || !Moved(p) || !Moved(q))
  {
    hide BinaryAfter, BinaryBefore, Orders, Fits, Default;
    if p == q || !Moved(p) || !Moved(q) {
      forall f: (Element, Element) -> Element, a: Tensor, b: Tensor | Fits(a, p) && Fits(b, q)
        ensures BinaryAfter(f, p, q, a, b) == BinaryBefore(f, p, q, a, b)
      {
        BinaryKept(f, p, q, a, b);
      }
    } else {
      BinaryLost(p, q);
    }
  }

  /** Which input's transpose sink_binary takes when neither order moves an axis: by comparing shapes. */
  function PickedRank(left: Shape, right: Shape): nat {
    if BroadcastShape(left, right) == left then |left| else |right|
  }

  /** The default order of the given rank changes nothing in x. */
  ghost predicate Harmless(x: Tensor, rank: nat) {
    IsPermutation(Default(rank)) && |x.shape| == rank && Permute(x, Default(rank)) == x
  }

  /** Two default orders: the one taken belongs to the result unless the left input has more axes and is stretched. */
  lemma DefaultOrdersIff(f: (Element, Element) -> Element, a: Tensor, b: Tensor)
    ensures Harmless(Zip(f, a, b), PickedRank(a.shape, b.shape))
       <==> (|a.shape| <= |b.shape| || BroadcastShape(a.shape, b.shape) == a.shape)
  {
    hide Zip, Permute, IsPermutation, BroadcastShape;
    var n := PickedRank(a.shape, b.shape);
    if |Zip(f, a, b).shape| == n {
      PermuteDefault(Zip(f, a, b), n);
    }
  }

  /** Shapes [2, 1] and [3] give [2, 3], but the order of the second is taken. */
  lemma DefaultOrdersMislead()
    ensures BroadcastShape([2, 1], [3]) == [2, 3] && PickedRank([2, 1], [3]) == 1
  {
    assert Extend([3], 2) == [1, 3];
  }

  // ---------- padding ----------

  ghost predicate AllFit(outputs: int -> Tensor, n: nat) {
    forall k :: outputs(k).WellFormed() && |outputs(k).shape| == n
  }

  /** sink_pad reads the first output of its source node: right for every node exactly if that was the one padded. */
  ghost predicate PadPreserved(n: nat, slot: int) {
    forall outputs: int -> Tensor, mode: PadMode, begin: seq<int>, end: seq<int>, filling: Element ::
      AllFit(outputs, n) && |begin| == |end| == n ==>
        PadTensor(mode, outputs(0), begin, end, filling) == PadTensor(mode, outputs(slot), begin, end, filling)
  }

  ghost function Filled(n: nat, e: Element): (r: Tensor)
    ensures r.WellFormed() && r.shape == Ones(n)
  {
    Build(Ones(n), (_: Index) => e)
  }

  function Origin(n: nat): (r: seq<int>)
    ensures |r| == n && forall k :: 0 <= k < n ==> r[k] == 0
  {
    seq(n, _ => 0)
  }

  lemma UnpaddedAt(n: nat, e: Element, filling: Element)
    ensures PadTensor(Constant, Filled(n, e), Origin(n), Origin(n), filling).Get(Origin(n)) == e
  {
    hide PadTensor;
    var i := Origin(n);
    assert InBounds(i, PadShape(Ones(n), i, i));
    PadTensorAt(Constant, Filled(n, e), i, i, filling, i);
    var sources := PadSources(Constant, i, Ones(n), i);
    assert seq(|sources|, k requires 0 <= k < |sources| => if sources[k].Some? then sources[k].value else 0) == i;
    BuildAt(Ones(n), (_: Index) => e, i);
  }

  lemma OtherOutputLost(n: nat, slot: int)
    requires slot != 0
    ensures !PadPreserved(n, slot)
  {
    hide PadTensor, Filled;
    var outputs := (k: int) => if k == 0 then Filled(n, 0) else Filled(n, 1);
    var i := Origin(n);
    UnpaddedAt(n, 0, 0);
    UnpaddedAt(n, 1, 0);
    assert AllFit(outputs, n);
    assert PadTensor(Constant, outputs(0), i, i, 0) != PadTensor(Constant, outputs(slot), i, i, 0);
  }

  lemma PadPreservedIff(n: nat, slot: int)
    ensures PadPreserved(n, slot) <==> slot == 0
  {
    hide PadTensor;
    if slot != 0 {
      OtherOutputLost(n, slot);
    }
  }
}
