/** The cache of compiled executables: least recently used first out, keyed by the printed signature. */
module ExecutableCache {
  import opened Signatures
  import opened Sets

  // ---------- recency, on values ----------

  /** The list without s. */
  function Remove(l: seq<string>, s: string): (r: seq<string>)
    ensures forall x :: x in r <==> x in l && x != s
  {
    if l == [] then [] else if l[0] == s then Remove(l[1..], s) else [l[0]] + Remove(l[1..], s)
  }

  /** The distinct members of a history, the newest first in both. */
  function MostRecent(history: seq<string>): (r: seq<string>)
    ensures forall x :: x in r <==> x in history
  {
    if history == [] then [] else [history[0]] + Remove(MostRecent(history[1..]), history[0])
  }

  predicate NoRepeats(l: seq<string>) {
    forall i, j :: 0 <= i < j < |l| ==> l[i] != l[j]
  }

  /** The list after a use of s: s moves to the front or enters there, the last one leaves a full cache. */
  function Touched(l: seq<string>, s: string, depth: nat): seq<string>
    requires depth >= 1
  {
    if s in l then [s] + Remove(l, s)
    else if |l| >= depth then [s] + l[..|l| - 1]
    else [s] + l
  }

  lemma {:induction false} RemoveKeepsOrder(l: seq<string>, s: string)
    requires NoRepeats(l)
    ensures NoRepeats(Remove(l, s))
    ensures |Remove(l, s)| == if s in l then |l| - 1 else |l|
    ensures s !in l ==> Remove(l, s) == l
  {
    if l != [] {
      assert l == [l[0]] + l[1..];
      RemoveKeepsOrder(l[1..], s);
      if l[0] == s {
        assert s !in l[1..];
      } else {
        var rest := Remove(l[1..], s);
        forall j | 0 <= j < |rest| ensures rest[j] != l[0] {
          assert rest[j] in rest && rest[j] in l[1..];
        }
      }
    }
  }

  lemma {:induction false} RemovePrefix(l: seq<string>, m: seq<string>, s: string)
    requires l <= m && NoRepeats(m)
    ensures Remove(l, s) <= Remove(m, s)
  {
    if l != [] {
      assert l[0] == m[0] && l[1..] <= m[1..];
      RemovePrefix(l[1..], m[1..], s);
    }
  }

  lemma {:induction false} MostRecentNoRepeats(history: seq<string>)
    ensures NoRepeats(MostRecent(history))
  {
    if history != [] {
      MostRecentNoRepeats(history[1..]);
      var rest := Remove(MostRecent(history[1..]), history[0]);
      RemoveKeepsOrder(MostRecent(history[1..]), history[0]);
      forall j | 0 <= j < |rest| ensures rest[j] != history[0] {
        assert rest[j] in rest;
      }
    }
  }

  /** Where s was used last. */
  function LastUse(history: seq<string>, s: string): (r: nat)
    requires s in history
    ensures r < |history| && history[r] == s && forall i :: 0 <= i < r ==> history[i] != s
  {
    if history[0] == s then 0 else 1 + LastUse(history[1..], s)
  }

  lemma {:induction false} RemoveOrder(l: seq<string>, s: string, i: nat, j: nat) returns (i': nat, j': nat)
    requires i < j < |Remove(l, s)|
    ensures i' < j' < |l| && l[i'] == Remove(l, s)[i] && l[j'] == Remove(l, s)[j]
  {
    if l[0] == s {
      i', j' := RemoveOrder(l[1..], s, i, j);
      i', j' := i' + 1, j' + 1;
    } else if i > 0 {
      i', j' := RemoveOrder(l[1..], s, i - 1, j - 1);
      i', j' := i' + 1, j' + 1;
    } else {
      var rest := Remove(l[1..], s);
      assert rest[j - 1] in l[1..];
      j' :| 0 < j' < |l| && l[j'] == rest[j - 1];
      i' := 0;
    }
  }

  lemma LastUseTail(history: seq<string>, s: string)
    requires s in history && s != history[0]
    ensures s in history[1..] && LastUse(history, s) == 1 + LastUse(history[1..], s)
  {
  }

  /** All but the newest signature come from the earlier history. */
  lemma MostRecentAt(history: seq<string>, k: nat)
    requires k < |MostRecent(history)|
    ensures history != [] && MostRecent(history)[k] in history && (k == 0 <==> MostRecent(history)[k] == history[0])
    ensures k > 0 ==> k - 1 < |Remove(MostRecent(history[1..]), history[0])|
                      && MostRecent(history)[k] == Remove(MostRecent(history[1..]), history[0])[k - 1]
  {
    var rest := Remove(MostRecent(history[1..]), history[0]);
    assert MostRecent(history) == [history[0]] + rest;
    assert k > 0 ==> rest[k - 1] in rest;
  }

  /** The most recent signatures stand in the order of their last use. */
  lemma {:induction false} MostRecentOrder(history: seq<string>, i: nat, j: nat)
    requires i < j < |MostRecent(history)|
    ensures MostRecent(history)[i] in history && MostRecent(history)[j] in history
    ensures LastUse(history, MostRecent(history)[i]) < LastUse(history, MostRecent(history)[j])
  {
    hide Remove, MostRecent, LastUse;
    MostRecentAt(history, i);
    MostRecentAt(history, j);
    LastUseTail(history, MostRecent(history)[j]);
    if i > 0 {
      LastUseTail(history, MostRecent(history)[i]);
      var i', j' := RemoveOrder(MostRecent(history[1..]), history[0], i - 1, j - 1);
      MostRecentOrder(history[1..], i', j');
    } else {
      FirstUsed(history);
    }
  }

  lemma FirstUsed(history: seq<string>)
    requires history != []
    ensures LastUse(history, history[0]) == 0
  {
  }

  /** What the cache holds is the start of the most recent signatures. */
  ghost predicate Recent(l: seq<string>, history: seq<string>) {
    l <= MostRecent(history)
  }

  /** ... and as much of it as fits. */
  ghost predicate ExactlyRecent(l: seq<string>, history: seq<string>, depth: nat) {
    l == Fitting(MostRecent(history), depth)
  }

  /** The list after making room in a full cache. */
  function Evicted(l: seq<string>, depth: nat): (r: seq<string>)
    requires depth >= 1
  {
    if |l| >= depth then l[..|l| - 1] else l
  }

  function Restricted<X>(m: map<string, X>, l: seq<string>): map<string, X> {
    map s | s in m && s in l :: m[s]
  }

  /** Making room without filling it leaves an exact cache exact only if there was room already. */
  lemma EvictedExactly(l: seq<string>, history: seq<string>, depth: nat)
    requires depth >= 1 && ExactlyRecent(l, history, depth)
    ensures ExactlyRecent(Evicted(l, depth), history, depth) <==> |l| < depth
  {
  }

  /** A full cache is exact, so the first miss that succeeds after a failed compilation makes it exact again. */
  lemma FullIsExact(l: seq<string>, history: seq<string>, depth: nat)
    requires Recent(l, history) && |l| == depth
    ensures ExactlyRecent(l, history, depth)
  {
    assert l == MostRecent(history)[..depth];
  }

  lemma TouchedRecent(l: seq<string>, history: seq<string>, s: string, depth: nat)
    requires depth >= 1 && Recent(l, history) && |l| <= depth
    ensures Recent(Touched(l, s, depth), [s] + history) && |Touched(l, s, depth)| <= depth
    ensures NoRepeats(l) && NoRepeats(Touched(l, s, depth))
  {
    var all := MostRecent(history);
    MostRecentNoRepeats(history);
    MostRecentNoRepeats([s] + history);
    assert ([s] + history)[1..] == history;
    RemovePrefix(l, all, s);
    RemoveKeepsOrder(l, s);
  }

  /** As much of the list as fits. */
  function Fitting(all: seq<string>, depth: nat): seq<string> {
    if |all| <= depth then all else all[..depth]
  }

  lemma TouchedLength(all: seq<string>, s: string, depth: nat)
    requires depth >= 1 && NoRepeats(all)
    ensures |Touched(Fitting(all, depth), s, depth)| == |Fitting([s] + Remove(all, s), depth)|
  {
    var l := Fitting(all, depth);
    RemoveKeepsOrder(all, s);
    RemoveKeepsOrder(l, s);
    assert s in l ==> s in all;
  }

  lemma PrefixFits(l: seq<string>, all: seq<string>, depth: nat)
    requires l <= all && |l| == |Fitting(all, depth)|
    ensures l == Fitting(all, depth)
  {
  }

  /** Touching keeps the cache exact. */
  lemma TouchedExactlyRecent(l: seq<string>, history: seq<string>, s: string, depth: nat)
    requires depth >= 1 && ExactlyRecent(l, history, depth)
    ensures ExactlyRecent(Touched(l, s, depth), [s] + history, depth)
  {
    MostRecentNoRepeats(history);
    TouchedRecent(l, history, s, depth);
    assert ([s] + history)[1..] == history;
    TouchedLength(MostRecent(history), s, depth);
    PrefixFits(Touched(l, s, depth), MostRecent([s] + history), depth);
  }

  // ---------- the cache ----------

  datatype Status =
    | OK
    | NotPrintable     // a static input of a type that cannot be printed
    | NotTranslated    // the graph could not be translated
    | NotCompiled      // the function could not be compiled

  class Cache<Function, Executable(==)> {
    const kernel: seq<Input>
    const printable: seq<bool>
    const translate: Request -> Option<Function>
    const compile: Function -> Option<Executable>
    const depth: nat

    var execMap: map<string, Executable>
    var lru: seq<string>

    ghost var history: seq<string>   // the signatures of the successful calls, newest first

    /** What translating and compiling afresh gives for the inputs. */
    ghost function Fresh(inputs: seq<Tensor>): Option<Executable>
      requires |inputs| == |kernel|
    {
      match translate(RequestOf(inputs, kernel))
      case None => None
      case Some(f) => compile(f)
    }

    /** Every cached executable is what a fresh compilation would give, for all inputs of its signature. */
    ghost predicate Correct()
      reads this`execMap
    {
      forall inputs: seq<Tensor> :: |inputs| == |kernel| && Signature(inputs, kernel) in execMap ==>
        Fresh(inputs) == Some(execMap[Signature(inputs, kernel)])
    }

    ghost predicate Valid()
      reads this
    {
      && |printable| == |kernel| && depth >= 1
      && (forall s :: s in execMap <==> s in lru)
      && NoRepeats(lru) && |lru| <= depth
      && Recent(lru, history)
      && (Faithful(kernel) ==> Correct())
    }

    constructor (kernel: seq<Input>, printable: seq<bool>, translate: Request -> Option<Function>,
                 compile: Function -> Option<Executable>, depth: nat)
      requires |printable| == |kernel| && depth >= 1
      ensures Valid() && execMap == map[] && history == [] && ExactlyRecent(lru, history, depth)
      ensures this.kernel == kernel && this.printable == printable && this.depth == depth
      ensures this.translate == translate && this.compile == compile
    {
      this.kernel, this.printable, this.depth := kernel, printable, depth;
      this.translate, this.compile := translate, compile;
      execMap, lru := map[], [];
      history := [];
    }

    /** Collects and prints the shapes of all inputs. */
    method PrintShapes(inputs: seq<Tensor>) returns (s: string, shapes: seq<Shape>)
      ensures s == Lists(Shapes(inputs))
      ensures |shapes| == |inputs| && forall i :: 0 <= i < |inputs| ==> shapes[i] == inputs[i].shape
    {
      hide Texts, Decimal, Shown;
      s, shapes := "", [];
      for i := 0 to |inputs|
        invariant s == Lists(Shapes(inputs[..i]))
        invariant |shapes| == i && forall j :: 0 <= j < i ==> shapes[j] == inputs[j].shape
      {
        shapes := shapes + [inputs[i].shape];
        var dims := Print(inputs[i].shape, Decimal);
        s := s + dims + [';'];
        ListsAppend(Shapes(inputs[..i]), Shown(inputs[i].shape, Decimal));
        assert Shapes(inputs[..i + 1]) == Shapes(inputs[..i]) + [Shown(inputs[i].shape, Decimal)];
      }
      assert inputs[..|inputs|] == inputs;
    }

    /** Prints numbers, each followed by a comma. */
    method Print(xs: seq<int>, show: int -> string) returns (s: string)
      ensures s == Texts(Shown(xs, show))
    {
      s := "";
      for i := 0 to |xs|
        invariant s == Texts(Shown(xs[..i], show))
      {
        s := s + show(xs[i]) + [','];
        TextsAppend(Shown(xs[..i], show), show(xs[i]));
        assert Shown(xs[..i + 1], show) == Shown(xs[..i], show) + [show(xs[i])];
      }
      assert xs[..|xs|] == xs;
    }

    /** Collects the static inputs and prints their data. */
    method PrintStatics(inputs: seq<Tensor>) returns (ok: bool, s: string, statics: seq<Option<Tensor>>)
      requires |inputs| == |kernel| == |printable|
      ensures ok <==> forall i :: 0 <= i < |inputs| && kernel[i].isStatic ==> printable[i]
      ensures ok ==> s == Lists(StaticData(inputs, kernel))
      ensures ok ==> |statics| == |inputs|
      ensures ok ==> forall i :: 0 <= i < |inputs| ==>
                       statics[i] == if kernel[i].isStatic then Some(inputs[i]) else None
    {
      s := "";
      statics := seq(|inputs|, _ => None);
      for i := 0 to |inputs|
        invariant forall j :: 0 <= j < i && kernel[j].isStatic ==> printable[j]
        invariant s == Lists(StaticData(inputs[..i], kernel[..i])) && |statics| == |inputs|
        invariant forall j :: 0 <= j < |inputs| ==>
                    statics[j] == if kernel[j].isStatic && j < i then Some(inputs[j]) else None
      {
        StaticDataAppend(inputs, kernel, i);
        if kernel[i].isStatic {
          statics := statics[i := Some(inputs[i])];
          if !printable[i] {
            return false, s, statics;
          }
          var data := Print(inputs[i].data, kernel[i].show);
          ListsAppend(StaticData(inputs[..i], kernel[..i]), Shown(inputs[i].data, kernel[i].show));
          s := s + data + [';'];
        } else {
          assert StaticData(inputs[..i], kernel[..i]) + [] == StaticData(inputs[..i], kernel[..i]);
        }
      }
      assert inputs[..|inputs|] == inputs && kernel[..|kernel|] == kernel;
      ok := true;
    }

    /** The signature, and what translation would be handed: one shape per input and the static tensors. */
    method ComputeSignature(inputs: seq<Tensor>) returns (ok: bool, s: string, request: Request)
      requires |inputs| == |kernel| == |printable|
      ensures ok <==> forall i :: 0 <= i < |inputs| && kernel[i].isStatic ==> printable[i]
      ensures ok ==> s == Signature(inputs, kernel)
      ensures ok ==> |request.shapes| == |inputs| == |request.statics|
      ensures ok ==> forall i :: 0 <= i < |inputs| ==>
                request.shapes[i] == inputs[i].shape
                && request.statics[i] == if kernel[i].isStatic then Some(inputs[i]) else None
    {
      var printed, shapes := PrintShapes(inputs);
      var data: string, statics: seq<Option<Tensor>>;
      ok, data, statics := PrintStatics(inputs);
      s := printed + ['/'] + data;
      request := Request(shapes, statics);
    }

    /** Makes room in a full cache. */
    method Evict()
      requires Valid()
      modifies this`execMap, this`lru
      ensures lru == Evicted(old(lru), depth)
      ensures execMap == Restricted(old(execMap), lru) && forall s :: s in execMap <==> s in lru
      // the last one goes if the cache is full
      ensures |old(execMap)| >= depth ==> |old(lru)| > 0 && lru == old(lru)[..|old(lru)| - 1]
      ensures |old(execMap)| < depth ==> lru == old(lru) && execMap == old(execMap)
    {
      hide NoRepeats, Restricted, Recent, Correct;
      KeysCount(execMap, lru);
      EvictedMap(execMap, lru);
      if |execMap| >= depth {
        var last := lru[|lru| - 1];
        execMap := execMap - {last};
        lru := lru[..|lru| - 1];
      }
    }

    /** A use of a cached signature. */
    method Hit(s: string) returns (exec: Executable)
      requires Valid() && s in execMap
      modifies this`lru, this`history
      ensures Valid() && exec == execMap[s] && execMap == old(execMap)
      ensures lru == Touched(old(lru), s, depth) && history == [s] + old(history)
    {
      TouchedRecent(lru, history, s, depth);
      RemoveFront(lru, s);
      if s != lru[0] {
        lru := Remove(lru, s);
        lru := [s] + lru;
      }
      history := [s] + history;
      exec := execMap[s];
    }

    /** Translates and compiles; the result enters the cache. */
    method Miss(inputs: seq<Tensor>, s: string, request: Request) returns (st: Status, exec: Option<Executable>)
      requires Valid() && |inputs| == |kernel| && s == Signature(inputs, kernel) && s !in execMap
      requires request == RequestOf(inputs, kernel)
      modifies this
      ensures Valid()
      ensures st in {OK, NotTranslated, NotCompiled}
      ensures st == NotTranslated <==> translate(RequestOf(inputs, kernel)).None?
      ensures st == OK <==> Fresh(inputs).Some?
      ensures st == OK ==> exec == Fresh(inputs) && s in execMap && exec.value == execMap[s]
      ensures st == OK ==> history == [s] + old(history) && lru == Touched(old(lru), s, depth)
      ensures st != OK ==> history == old(history)
      ensures st == NotTranslated ==> execMap == old(execMap) && lru == old(lru)
      ensures st == NotCompiled ==> lru == Evicted(old(lru), depth) && execMap == Restricted(old(execMap), lru)
    {
      var f := translate(request);
      if f.None? {
        return NotTranslated, None;
      }
      Evict();
      exec := compile(f.value);
      if exec.None? {
        return NotCompiled, None;
      }
      TouchedRecent(old(lru), history, s, depth);
      execMap := execMap[s := exec.value];
      lru := [s] + lru;
      history := [s] + history;
      st := OK;
      if Faithful(kernel) {
        StillCorrect(old(execMap), inputs, s, exec.value);
      }
    }

    lemma StillCorrect(before: map<string, Executable>, inputs: seq<Tensor>, s: string, exec: Executable)
      requires |inputs| == |kernel| && s == Signature(inputs, kernel) && Fresh(inputs) == Some(exec) && Faithful(kernel)
      requires forall others: seq<Tensor> :: |others| == |kernel| && Signature(others, kernel) in before ==>
                 Fresh(others) == Some(before[Signature(others, kernel)])
      requires forall x :: x in execMap ==> (x == s && execMap[x] == exec) || (x in before && execMap[x] == before[x])
      ensures Correct()
    {
      forall others: seq<Tensor> | |others| == |kernel| && Signature(others, kernel) in execMap
        ensures Fresh(others) == Some(execMap[Signature(others, kernel)])
      {
        if Signature(others, kernel) == s {
          SameRequest(others, inputs, kernel);
        }
      }
    }

    /** The executable for a signature, found or made. */
    method Lookup(inputs: seq<Tensor>, s: string, request: Request) returns (st: Status, exec: Option<Executable>)
      requires Valid() && |inputs| == |kernel| && s == Signature(inputs, kernel) && request == RequestOf(inputs, kernel)
      modifies this
      ensures Valid() && st in {OK, NotTranslated, NotCompiled}
      ensures st == OK ==> exec.Some? && s in execMap && exec.value == execMap[s]
      ensures st == OK && (Faithful(kernel) || s !in old(execMap)) ==> exec == Fresh(inputs)
      ensures s in old(execMap) ==> execMap == old(execMap)
      ensures st == OK ==> history == [s] + old(history) && lru == Touched(old(lru), s, depth)
      ensures st != OK ==> history == old(history)
      ensures st == NotTranslated ==> execMap == old(execMap) && lru == old(lru)
      ensures Fresh(inputs).Some? || s in old(execMap) ==> st == OK
      ensures st == NotCompiled ==> lru == Evicted(old(lru), depth) && execMap == Restricted(old(execMap), lru)
    {
      if s in execMap {
        var e := Hit(s);
        st, exec := OK, Some(e);
      } else {
        st, exec := Miss(inputs, s, request);
      }
    }

    /**
     The executable for the inputs, from the cache if it has one. Whenever signatures identify calls, it is the one
     that a fresh compilation would give of the translation for the shape of every input, in order, and for the static
     inputs in their places.
     */
    method GetExecutable(inputs: seq<Tensor>) returns (st: Status, exec: Option<Executable>)
      requires Valid() && |inputs| == |kernel|
      modifies this
      ensures Valid()
      ensures st == NotPrintable <==> exists i :: 0 <= i < |inputs| && kernel[i].isStatic && !printable[i]
      ensures st == OK ==>
          exec.Some? && Signature(inputs, kernel) in execMap && exec.value == execMap[Signature(inputs, kernel)]
      ensures st == OK && (Faithful(kernel) || Signature(inputs, kernel) !in old(execMap)) ==> exec == Fresh(inputs)
      ensures Fresh(inputs) ==
              var shapes := seq(|inputs|, i requires 0 <= i < |inputs| => inputs[i].shape);
              var statics := seq(|inputs|, i requires 0 <= i < |inputs| =>
                if kernel[i].isStatic then Some(inputs[i]) else None);
              match translate(Request(shapes, statics))
              case None => None
              case Some(f) => compile(f)
      ensures Signature(inputs, kernel) in old(execMap) ==> execMap == old(execMap)
      ensures st == OK ==> history == [Signature(inputs, kernel)] + old(history)
      ensures st == OK ==> lru == Touched(old(lru), Signature(inputs, kernel), depth)
      ensures st != OK ==> history == old(history)
      ensures st in {NotPrintable, NotTranslated} ==> execMap == old(execMap) && lru == old(lru)
      ensures st != NotPrintable && (Fresh(inputs).Some? || Signature(inputs, kernel) in old(execMap)) ==> st == OK
      ensures st == NotCompiled ==> lru == Evicted(old(lru), depth) && execMap == Restricted(old(execMap), lru)
      // an exact cache stays exact unless a failed compilation comes after an eviction
      ensures ExactlyRecent(old(lru), old(history), depth) ==>
                (ExactlyRecent(lru, history, depth) <==> st != NotCompiled || |old(lru)| < depth)
    {
      var ok, s, request := ComputeSignature(inputs);
      st, exec := NotPrintable, None;
      if ok {
        assert request == RequestOf(inputs, kernel);
        st, exec := Lookup(inputs, s, request);
      }
      if ExactlyRecent(old(lru), old(history), depth) {
        TouchedExactlyRecent(old(lru), old(history), Signature(inputs, kernel), depth);
        EvictedExactly(old(lru), old(history), depth);
      }
    }
  }

  /** A list without repetition of exactly the keys is as long as the map. */
  lemma {:induction false} KeysCount<X>(m: map<string, X>, l: seq<string>)
    requires NoRepeats(l) && forall s :: s in m <==> s in l
    ensures |m| == |l|
  {
    if l != [] {
      var last := l[|l| - 1];
      assert l == l[..|l| - 1] + [last];
      assert last in m;
      var m' := m - {last};
      forall s ensures s in m' <==> s in l[..|l| - 1] {
        assert s in l <==> s in l[..|l| - 1] || s == last;
      }
      KeysCount(m', l[..|l| - 1]);
      assert m'.Keys == m.Keys - {last};
    } else {
      assert m.Keys == {};
    }
  }

  ghost predicate KeysAre<X>(m: map<string, X>, l: seq<string>) {
    forall s :: s in m <==> s in l
  }

  /** Erasing the last one leaves what the shortened list names. */
  lemma EvictedMap<X>(m: map<string, X>, l: seq<string>)
    requires NoRepeats(l) && forall s :: s in m <==> s in l
    ensures m == Restricted(m, l)
    ensures l != [] ==> m - {l[|l| - 1]} == Restricted(m, l[..|l| - 1])
    ensures l != [] ==> KeysAre(Restricted(m, l[..|l| - 1]), l[..|l| - 1])
  {
    if l != [] {
      DropLast(l);
    }
  }

  lemma DropLast(l: seq<string>)
    requires NoRepeats(l) && l != []
    ensures forall s :: s in l[..|l| - 1] <==> s in l && s != l[|l| - 1]
  {
    assert l == l[..|l| - 1] + [l[|l| - 1]];
  }

  /** Moving the first one to the front changes nothing. */
  lemma RemoveFront(l: seq<string>, s: string)
    requires NoRepeats(l) && s in l
    ensures l != [] && (l[0] == s ==> [s] + Remove(l, s) == l)
  {
    if l[0] == s {
      assert l == [s] + l[1..];
      assert s !in l[1..];
      RemoveKeepsOrder(l[1..], s);
    }
  }

  /**
   When two elements of a static input print alike, a cache whose executables differ between requests
   answers the second of two calls with the executable of the first, not with a fresh one.
   */
  method LossyGoesStale(kernel: seq<Input>, i: nat, x: int, y: int, depth: nat)
    returns (cache: Cache<Request, Request>, first: Option<Request>, second: Option<Request>)
    requires i < |kernel| && kernel[i].isStatic && x != y && kernel[i].show(x) == kernel[i].show(y) && depth >= 1
    ensures cache.kernel == kernel && first == cache.Fresh(Probe(kernel, i, x))
    ensures second.Some? && second == first && second != cache.Fresh(Probe(kernel, i, y))
  {
    LossyConfuses(kernel, i, x, y);
    hide Signature, Probe, RequestOf, NoRepeats, Faithful, Recent, ExactlyRecent, Touched, Evicted, Restricted;
    var one, other := Probe(kernel, i, x), Probe(kernel, i, y);
    cache := new Cache(kernel, seq(|kernel|, _ => true), r => Some(r), r => Some(r), depth);
    var st;
    st, first := cache.GetExecutable(one);
    st, second := cache.GetExecutable(other);
  }
}
