/** The printed signature of a call: input shapes and static input data, and when it can be read back. */
module Signatures {

  type Shape = seq<nat>

  /** The elements of a tensor are bit patterns of its element type. */
  datatype Tensor = Tensor(shape: Shape, data: seq<int>)

  /** An input of the kernel: whether its value is static, and how elements of its type are printed. */
  datatype Input = Input(isStatic: bool, show: int -> string)

  datatype Option<T> = None | Some(value: T)

  // ---------- printing ----------

  function Digit(d: nat): char
    requires d < 10
  {
    ['0', '1', '2', '3', '4', '5', '6', '7', '8', '9'][d]
  }

  function Digits(n: nat): string {
    if n < 10 then [Digit(n)] else Digits(n / 10) + [Digit(n % 10)]
  }

  /** How integers are printed. */
  function Decimal(n: int): string {
    if n < 0 then "-" + Digits(-n) else Digits(n)
  }

  function Shown(xs: seq<int>, show: int -> string): (r: seq<string>)
    ensures |r| == |xs| && forall i :: 0 <= i < |xs| ==> r[i] == show(xs[i])
  {
    seq(|xs|, i requires 0 <= i < |xs| => show(xs[i]))
  }

  /** Every text, each followed by a comma. */
  function Texts(ts: seq<string>): string {
    if ts == [] then "" else ts[0] + [','] + Texts(ts[1..])
  }

  /** Every list of texts, each followed by a semicolon. */
  function Lists(tss: seq<seq<string>>): string {
    if tss == [] then "" else Texts(tss[0]) + [';'] + Lists(tss[1..])
  }

  function Shapes(inputs: seq<Tensor>): (r: seq<seq<string>>)
    ensures |r| == |inputs| && forall i :: 0 <= i < |inputs| ==> r[i] == Shown(inputs[i].shape, Decimal)
  {
    seq(|inputs|, i requires 0 <= i < |inputs| => Shown(inputs[i].shape, Decimal))
  }

  /** The printed data of the static inputs, in order. */
  function StaticData(inputs: seq<Tensor>, kernel: seq<Input>): seq<seq<string>>
    requires |inputs| == |kernel|
  {
    if inputs == [] then []
    else
      var first := if kernel[0].isStatic then [Shown(inputs[0].data, kernel[0].show)] else [];
      first + StaticData(inputs[1..], kernel[1..])
  }

  function Signature(inputs: seq<Tensor>, kernel: seq<Input>): string
    requires |inputs| == |kernel|
  {
    Lists(Shapes(inputs)) + ['/'] + Lists(StaticData(inputs, kernel))
  }

  /** What a call hands to the translation: the shapes, and the tensors of the static inputs. */
  datatype Request = Request(shapes: seq<Shape>, statics: seq<Option<Tensor>>)

  ghost function RequestOf(inputs: seq<Tensor>, kernel: seq<Input>): Request
    requires |inputs| == |kernel|
  {
    Request(seq(|inputs|, i requires 0 <= i < |inputs| => inputs[i].shape),
            seq(|inputs|, i requires 0 <= i < |inputs| => if kernel[i].isStatic then Some(inputs[i]) else None))
  }

  // ---------- what printing must not do ----------

  predicate Plain(t: string) {
    ',' !in t && ';' !in t && '/' !in t
  }

  predicate PlainAt(show: int -> string, x: int) {
    Plain(show(x))
  }

  ghost predicate PlainShow(show: int -> string) {
    forall x :: PlainAt(show, x)
  }

  /** No element prints a separator. */
  ghost predicate PlainKernel(kernel: seq<Input>) {
    forall i :: 0 <= i < |kernel| ==> PlainShow(kernel[i].show)
  }

  ghost predicate Injective(show: int -> string) {
    forall x, y :: show(x) == show(y) ==> x == y
  }

  /** Different elements of a static input print differently. */
  ghost predicate Lossless(kernel: seq<Input>) {
    forall i :: 0 <= i < |kernel| && kernel[i].isStatic ==> Injective(kernel[i].show)
  }

  // ---------- reading numbers back ----------

  predicate IsDigit(c: char) {
    '0' <= c <= '9'
  }

  lemma {:induction false} DigitsAreDigits(n: nat)
    ensures |Digits(n)| > 0 && forall c :: c in Digits(n) ==> IsDigit(c)
  {
    if n >= 10 {
      DigitsAreDigits(n / 10);
    }
  }

  lemma {:induction false} DigitsInjective(m: nat, n: nat)
    requires Digits(m) == Digits(n)
    ensures m == n
  {
    var s, t := Digits(m), Digits(n);
    assert s[|s| - 1] == Digit(m % 10) && t[|t| - 1] == Digit(n % 10);
    if m >= 10 && n >= 10 {
      assert Digits(m / 10) == s[..|s| - 1] && Digits(n / 10) == t[..|t| - 1];
      DigitsInjective(m / 10, n / 10);
    } else if m >= 10 {
      DigitsAreDigits(m / 10);
    } else if n >= 10 {
      DigitsAreDigits(n / 10);
    }
  }

  lemma DecimalSign(n: int)
    ensures |Decimal(n)| > 0 && (Decimal(n)[0] == '-' <==> n < 0)
  {
    var magnitude := if n < 0 then -n else n;
    DigitsAreDigits(magnitude);
    assert Digits(magnitude)[0] in Digits(magnitude);
  }

  /** Integers print without separators, and different integers differently. */
  lemma DecimalInjective()
    ensures Injective(Decimal) && PlainShow(Decimal)
  {
    forall m, n | Decimal(m) == Decimal(n)
      ensures m == n
    {
      DecimalSign(m);
      DecimalSign(n);
      if m < 0 {
        assert Digits(-m) == Decimal(m)[1..] && Digits(-n) == Decimal(n)[1..];
        DigitsInjective(-m, -n);
      } else {
        DigitsInjective(m, n);
      }
    }
    forall n ensures PlainAt(Decimal, n) {
      DigitsAreDigits(if n < 0 then -n else n);
    }
  }

  // ---------- reading lists back ----------

  ghost predicate FirstAt(w: string, c: char, n: nat) {
    n < |w| && w[n] == c && forall k :: 0 <= k < n ==> w[k] != c
  }

  /** Text before a separator that does not occur in it is determined by the whole. */
  lemma SplitAt(s: string, t: string, c: char, r: string, q: string)
    requires c !in s && c !in t && s + [c] + r == t + [c] + q
    ensures s == t && r == q
  {
    var whole := s + [c] + r;
    assert whole == t + [c] + q;
    forall k | 0 <= k < |s| ensures whole[k] != c { assert whole[k] == s[k]; }
    forall k | 0 <= k < |t| ensures whole[k] != c { assert whole[k] == t[k]; }
    assert FirstAt(whole, c, |s|) && FirstAt(whole, c, |t|);
    assert s == whole[..|s|] && t == whole[..|t|];
    assert r == whole[|s| + 1..] && q == whole[|t| + 1..];
  }

  ghost predicate AllPlain(ts: seq<string>) {
    forall i :: 0 <= i < |ts| ==> Plain(ts[i])
  }

  lemma {:induction false} TextsChars(ts: seq<string>)
    requires AllPlain(ts)
    ensures ';' !in Texts(ts) && '/' !in Texts(ts)
  {
    if ts != [] {
      TextsChars(ts[1..]);
    }
  }

  lemma {:induction false} TextsInjective(ts: seq<string>, us: seq<string>)
    requires AllPlain(ts) && AllPlain(us) && Texts(ts) == Texts(us)
    ensures ts == us
  {
    if ts != [] && us != [] {
      SplitAt(ts[0], us[0], ',', Texts(ts[1..]), Texts(us[1..]));
      TextsInjective(ts[1..], us[1..]);
      assert ts == [ts[0]] + ts[1..] && us == [us[0]] + us[1..];
    }
  }

  ghost predicate AllListsPlain(tss: seq<seq<string>>) {
    forall i :: 0 <= i < |tss| ==> AllPlain(tss[i])
  }

  lemma {:induction false} ListsChars(tss: seq<seq<string>>)
    requires AllListsPlain(tss)
    ensures '/' !in Lists(tss)
  {
    if tss != [] {
      TextsChars(tss[0]);
      ListsChars(tss[1..]);
    }
  }

  lemma {:induction false} ListsInjective(tss: seq<seq<string>>, uss: seq<seq<string>>)
    requires AllListsPlain(tss) && AllListsPlain(uss) && Lists(tss) == Lists(uss)
    ensures tss == uss
  {
    if tss != [] && uss != [] {
      TextsChars(tss[0]);
      TextsChars(uss[0]);
      SplitAt(Texts(tss[0]), Texts(uss[0]), ';', Lists(tss[1..]), Lists(uss[1..]));
      TextsInjective(tss[0], uss[0]);
      ListsInjective(tss[1..], uss[1..]);
      assert tss == [tss[0]] + tss[1..] && uss == [uss[0]] + uss[1..];
    }
  }

  lemma ShownInjective(xs: seq<int>, ys: seq<int>, show: int -> string)
    requires Injective(show) && Shown(xs, show) == Shown(ys, show)
    ensures xs == ys
  {
    forall i | 0 <= i < |xs| ensures xs[i] == ys[i] {
      assert show(xs[i]) == Shown(xs, show)[i] && show(ys[i]) == Shown(ys, show)[i];
    }
  }

  lemma ShownPlain(xs: seq<int>, show: int -> string)
    requires PlainShow(show)
    ensures AllPlain(Shown(xs, show))
  {
    forall i | 0 <= i < |xs| ensures Plain(Shown(xs, show)[i]) {
      assert PlainAt(show, xs[i]);
    }
  }

  lemma ShapesPlain(inputs: seq<Tensor>)
    ensures AllListsPlain(Shapes(inputs))
  {
    DecimalInjective();
    forall i | 0 <= i < |inputs| ensures AllPlain(Shapes(inputs)[i]) {
      ShownPlain(inputs[i].shape, Decimal);
    }
  }

  lemma {:induction false} StaticDataPlain(inputs: seq<Tensor>, kernel: seq<Input>)
    requires |inputs| == |kernel| && PlainKernel(kernel)
    ensures AllListsPlain(StaticData(inputs, kernel))
  {
    if inputs != [] {
      StaticDataPlain(inputs[1..], kernel[1..]);
      ShownPlain(inputs[0].data, kernel[0].show);
      var rest := StaticData(inputs[1..], kernel[1..]);
      forall i | 0 <= i < |StaticData(inputs, kernel)| ensures AllPlain(StaticData(inputs, kernel)[i]) {
        assert i > 0 && kernel[0].isStatic ==> StaticData(inputs, kernel)[i] == rest[i - 1];
      }
    }
  }

  lemma {:induction false} StaticDataSame(inputs: seq<Tensor>, others: seq<Tensor>, kernel: seq<Input>, i: nat)
    requires |inputs| == |others| == |kernel| && i < |inputs| && kernel[i].isStatic
    requires StaticData(inputs, kernel) == StaticData(others, kernel)
    ensures Shown(inputs[i].data, kernel[i].show) == Shown(others[i].data, kernel[i].show)
  {
    var s, t := StaticData(inputs, kernel), StaticData(others, kernel);
    var s', t' := StaticData(inputs[1..], kernel[1..]), StaticData(others[1..], kernel[1..]);
    if kernel[0].isStatic {
      assert s == [Shown(inputs[0].data, kernel[0].show)] + s' && t == [Shown(others[0].data, kernel[0].show)] + t';
      assert s[0] == t[0] && s' == s[1..] && t' == t[1..];
    } else {
      assert s == s' && t == t';
    }
    if i > 0 {
      StaticDataSame(inputs[1..], others[1..], kernel[1..], i - 1);
    }
  }

  /** A lossless signature can be read back: equal signatures come from equal shapes and equal static tensors. */
  lemma SignatureDetermines(inputs: seq<Tensor>, others: seq<Tensor>, kernel: seq<Input>)
    requires |inputs| == |kernel| && |others| == |kernel|
    requires PlainKernel(kernel) && Lossless(kernel)
    requires Signature(inputs, kernel) == Signature(others, kernel)
    ensures forall i :: 0 <= i < |inputs| ==> inputs[i].shape == others[i].shape
    ensures forall i :: 0 <= i < |inputs| && kernel[i].isStatic ==> inputs[i] == others[i]
  {
    var p, q := StaticData(inputs, kernel), StaticData(others, kernel);
    DecimalInjective();
    ShapesPlain(inputs);
    ShapesPlain(others);
    StaticDataPlain(inputs, kernel);
    StaticDataPlain(others, kernel);
    ListsChars(Shapes(inputs));
    ListsChars(Shapes(others));
    SplitAt(Lists(Shapes(inputs)), Lists(Shapes(others)), '/', Lists(p), Lists(q));
    ListsInjective(Shapes(inputs), Shapes(others));
    ListsInjective(p, q);
    forall i | 0 <= i < |inputs|
      ensures inputs[i].shape == others[i].shape && (kernel[i].isStatic ==> inputs[i] == others[i])
    {
      assert Shapes(inputs)[i] == Shapes(others)[i];
      ShownInjective(inputs[i].shape, others[i].shape, Decimal);
      if kernel[i].isStatic {
        StaticDataSame(inputs, others, kernel, i);
        ShownInjective(inputs[i].data, others[i].data, kernel[i].show);
      }
    }
  }

  /** Inputs that are all scalars 0 but for the data of input i. */
  function Probe(kernel: seq<Input>, i: nat, x: int): (r: seq<Tensor>)
    ensures |r| == |kernel|
  {
    seq(|kernel|, j => Tensor([], if j == i then [x] else [0]))
  }

  /**
   Two elements of a static input that print alike make two calls, different in that input, that share a
   signature.
   */
  lemma LossyConfuses(kernel: seq<Input>, i: nat, x: int, y: int)
    requires i < |kernel| && kernel[i].isStatic && x != y && kernel[i].show(x) == kernel[i].show(y)
    ensures Signature(Probe(kernel, i, x), kernel) == Signature(Probe(kernel, i, y), kernel)
    ensures Probe(kernel, i, x)[i] != Probe(kernel, i, y)[i]
    ensures RequestOf(Probe(kernel, i, x), kernel) != RequestOf(Probe(kernel, i, y), kernel)
  {
    var p, q := Probe(kernel, i, x), Probe(kernel, i, y);
    assert Shapes(p) == Shapes(q);
    forall j | 0 <= j < |kernel|
      ensures Shown(p[j].data, kernel[j].show) == Shown(q[j].data, kernel[j].show)
    {
    }
    StaticDataEqual(p, q, kernel);
    assert p[i].data[0] == x && q[i].data[0] == y;
    assert RequestOf(p, kernel).statics[i] == Some(p[i]) && RequestOf(q, kernel).statics[i] == Some(q[i]);
  }

  lemma {:induction false} StaticDataEqual(inputs: seq<Tensor>, others: seq<Tensor>, kernel: seq<Input>)
    requires |inputs| == |others| == |kernel|
    requires forall i :: 0 <= i < |inputs| ==>
               Shown(inputs[i].data, kernel[i].show) == Shown(others[i].data, kernel[i].show)
    ensures StaticData(inputs, kernel) == StaticData(others, kernel)
  {
    if inputs != [] {
      StaticDataEqual(inputs[1..], others[1..], kernel[1..]);
    }
  }

  /** The signature identifies what matters of a call: the shapes of all inputs, and the static inputs themselves. */
  ghost predicate Faithful(kernel: seq<Input>) {
    forall inputs: seq<Tensor>, others: seq<Tensor> ::
      |inputs| == |kernel| && |others| == |kernel| && Signature(inputs, kernel) == Signature(others, kernel) ==>
        forall i :: 0 <= i < |kernel| ==>
          inputs[i].shape == others[i].shape && (kernel[i].isStatic ==> inputs[i] == others[i])
  }

  /** That is all that translation is handed. */
  lemma SameRequest(inputs: seq<Tensor>, others: seq<Tensor>, kernel: seq<Input>)
    requires |inputs| == |kernel| && |others| == |kernel|
    requires forall i :: 0 <= i < |kernel| ==>
               inputs[i].shape == others[i].shape && (kernel[i].isStatic ==> inputs[i] == others[i])
    ensures RequestOf(inputs, kernel) == RequestOf(others, kernel)
  {
  }

  /** Signatures identify calls in this sense exactly when the static inputs are printed without loss. */
  lemma FaithfulIffLossless(kernel: seq<Input>)
    requires PlainKernel(kernel)
    ensures Faithful(kernel) <==> Lossless(kernel)
  {
    if Lossless(kernel) {
      forall inputs: seq<Tensor>, others: seq<Tensor>
        | |inputs| == |kernel| && |others| == |kernel| && Signature(inputs, kernel) == Signature(others, kernel)
        ensures forall i :: 0 <= i < |kernel| ==>
                  inputs[i].shape == others[i].shape && (kernel[i].isStatic ==> inputs[i] == others[i])
      {
        SignatureDetermines(inputs, others, kernel);
      }
    } else {
      var i: nat :| i < |kernel| && kernel[i].isStatic && !Injective(kernel[i].show);
      var x, y :| kernel[i].show(x) == kernel[i].show(y) && x != y;
      LossyConfuses(kernel, i, x, y);
    }
  }

  /** A kernel whose static inputs are integers prints without loss. */
  lemma IntegersAreLossless(kernel: seq<Input>)
    requires forall i :: 0 <= i < |kernel| && kernel[i].isStatic ==> kernel[i].show == Decimal
    ensures Lossless(kernel)
  {
    DecimalInjective();
  }

  // ---------- printing step by step ----------

  lemma Regroup(a: string, b: string, c: string, d: string)
    ensures a + (b + c + d) == a + b + c + d
  {
  }

  lemma {:induction false} TextsAppend(ts: seq<string>, t: string)
    ensures Texts(ts + [t]) == Texts(ts) + t + [',']
  {
    if ts == [] {
      assert [t][1..] == [] && Texts([t]) == t + [','] + "";
    } else {
      var head := ts[0] + [','];
      assert (ts + [t])[1..] == ts[1..] + [t];
      TextsAppend(ts[1..], t);
      assert Texts(ts + [t]) == head + Texts(ts[1..] + [t]);
      Regroup(head, Texts(ts[1..]), t, [',']);
    }
  }

  lemma {:induction false} ListsAppend(tss: seq<seq<string>>, ts: seq<string>)
    ensures Lists(tss + [ts]) == Lists(tss) + Texts(ts) + [';']
  {
    if tss == [] {
      assert [ts][1..] == [] && Lists([ts]) == Texts(ts) + [';'] + "";
    } else {
      var head := Texts(tss[0]) + [';'];
      assert (tss + [ts])[1..] == tss[1..] + [ts];
      ListsAppend(tss[1..], ts);
      assert Lists(tss + [ts]) == head + Lists(tss[1..] + [ts]);
      Regroup(head, Lists(tss[1..]), Texts(ts), [';']);
    }
  }

  lemma {:induction false} StaticDataAppend(inputs: seq<Tensor>, kernel: seq<Input>, k: nat)
    requires |inputs| == |kernel| && k < |inputs|
    ensures StaticData(inputs[..k + 1], kernel[..k + 1]) ==
            StaticData(inputs[..k], kernel[..k]) + if kernel[k].isStatic then [Shown(inputs[k].data, kernel[k].show)]
                else []
  {
    var xs, bs := inputs[..k + 1], kernel[..k + 1];
    if k == 0 {
      assert StaticData(xs[1..], bs[1..]) == [];
    } else {
      assert xs[1..] == inputs[1..][..k] && bs[1..] == kernel[1..][..k];
      assert inputs[..k][1..] == inputs[1..][..k - 1] && kernel[..k][1..] == kernel[1..][..k - 1];
      StaticDataAppend(inputs[1..], kernel[1..], k - 1);
    }
  }
}
