/** Which transposes are left: where the pass had to put one, and nowhere else. */
module Residue {
  import opened TensorAlgebra
  import opened Sinking
  import opened Foresight
  import opened SinkingSteps
  import opened Materializing
  import opened Purging

  /**
   Input j of node z is one a transpose has to stand in front of: a node that is materialized is going to find it
   under an order that moves axes, or a binary operation finds it in place and the other input, of the same rank,
   under such an order.
   */
  ghost predicate Wanted(g: Graph, found: Output -> Found, z: int, j: int) {
    && z in g && 0 <= j < |g[z].inputs|
    && var p := found(g[z].inputs[j]).order;
    match g[z].op
    case Opaque(_) => p != Default(|p|)
    case Concat(_) => p != Default(|p|) && exists i :: 0 <= i < |g[z].inputs| && found(g[z].inputs[i]).order != p
    case Binary(_) =>
      && |g[z].inputs| == 2 && p == Default(|p|)
      && var q := found(g[z].inputs[1 - j]).order;
      |q| == |p| && q != p
    case _ => false
  }

  // ---------- what the pass keeps ----------

  /** Node z is done, and its input j has its transpose. */
  ghost predicate Served(pb: Problem, done: set<int>, z: int, j: int) {
    z in done && z in pb.g && Wanted(pb.g, pb.found, z, j)
  }

  /** A new transpose that is neither marked nor pending. */
  ghost predicate Standing(pb: Problem, s: State, o: Output) {
    && o.node in s.g && o.node !in pb.g && s.g[o.node].op.Transpose? && o.slot == 0
    && o.node !in s.toDelete && forall c :: c in s.reorders ==> s.reorders[c] != o.node
  }

  /** If o comes from a transpose, that is marked. */
  ghost predicate Clean(s: State, o: Output) {
    o.node in s.g && (s.g[o.node].op.Transpose? ==> o.slot == 0 && o.node in s.toDelete)
  }

  /** What is read is clean, or a transpose that waits, or one that is wanted. */
  ghost predicate Fine(pb: Problem, s: State, done: set<int>, begun: set<int>, z: int, j: int)
    requires z in s.g && 0 <= j < |s.g[z].inputs|
  {
    var o := s.g[z].inputs[j];
    if Served(pb, done, z, j) then Standing(pb, s, o)
    else Clean(s, o) || (o.node in s.g && o.slot == 0 && o.node in pb.g && o.node !in begun)
  }

  /** New transposes are over older nodes that have begun; only those are marked. */
  ghost predicate Grounded(pb: Problem, s: State, begun: set<int>) {
    && (forall z :: z in s.g || z in pb.g ==> z < s.nextId)
    && (forall z :: z in s.g && z !in pb.g && s.g[z].op.Transpose? ==>
          |s.g[z].inputs| == 1 && Below(pb, begun, s.g[z].inputs[0], z))
    && (forall t :: t in s.toDelete ==> t in s.g && t !in pb.g && s.g[t].op.Transpose?)
    && (forall c :: c in s.reorders ==>
          s.reorders[c] in s.g && s.reorders[c] !in pb.g && s.g[s.reorders[c]].op.Transpose?)
  }

  ghost predicate Below(pb: Problem, begun: set<int>, o: Output, z: int) {
    o.node < z && (o.node in pb.g ==> o.node in begun)
  }

  /** Every input is fine, but for those of the node being processed. */
  ghost predicate Tidy(pb: Problem, s: State, done: set<int>, begun: set<int>) {
    && Grounded(pb, s, begun)
    && forall z, j :: z in s.g && 0 <= j < |s.g[z].inputs| && (z in begun ==> z in done) ==>
         Fine(pb, s, done, begun, z, j)
  }

  lemma StartTidy(pb: Problem, next: int)
    requires pb.WellFormed() && forall x :: x in pb.g ==> x < next
    ensures Tidy(pb, State(pb.g, next, map[], {}), {}, {})
  {
    var s := State(pb.g, next, map[], {});
    forall z, j | z in s.g && 0 <= j < |s.g[z].inputs| ensures Fine(pb, s, {}, {}, z, j) {
      var o := s.g[z].inputs[j];
      assert pb.Has(o) && pb.Typed(o.node);
    }
  }

  // ---------- small steps ----------

  /** Transpose t may be marked, and may be pending: nobody is served by it. */
  ghost predicate Idle(pb: Problem, s: State, done: set<int>, t: int) {
    && t in s.g && t !in pb.g && s.g[t].op.Transpose?
    && forall z, j :: z in s.g && 0 <= j < |s.g[z].inputs| && Served(pb, done, z, j) ==> s.g[z].inputs[j].node != t
  }

  lemma PendingIdle(pb: Problem, s: State, done: set<int>, begun: set<int>, c: Output)
    requires Tidy(pb, s, done, begun) && done <= begun && c in s.reorders
    ensures Idle(pb, s, done, s.reorders[c])
  {
    hide Wanted;
    forall z, j | z in s.g && 0 <= j < |s.g[z].inputs| && Served(pb, done, z, j)
      ensures s.g[z].inputs[j].node != s.reorders[c]
    {
      assert Fine(pb, s, done, begun, z, j);
    }
  }

  lemma MarkTidy(pb: Problem, s: State, done: set<int>, begun: set<int>, t: int)
    requires Tidy(pb, s, done, begun) && Idle(pb, s, done, t)
    ensures Tidy(pb, Mark(s, t), done, begun)
    ensures forall u :: Idle(pb, s, done, u) ==> Idle(pb, Mark(s, t), done, u)
  {
    hide Wanted;
    var s' := Mark(s, t);
    forall z, j | z in s'.g && 0 <= j < |s'.g[z].inputs| && (z in begun ==> z in done)
      ensures Fine(pb, s', done, begun, z, j)
    {
      assert Fine(pb, s, done, begun, z, j);
    }
  }

  lemma PendTidy(pb: Problem, s: State, done: set<int>, begun: set<int>, c: Output, t: int)
    requires Tidy(pb, s, done, begun) && Idle(pb, s, done, t)
    ensures Tidy(pb, Pend(s, c, t), done, begun)
    ensures forall u :: Idle(pb, s, done, u) ==> Idle(pb, Pend(s, c, t), done, u)
  {
    hide Wanted;
    var s' := Pend(s, c, t);
    forall z, j | z in s'.g && 0 <= j < |s'.g[z].inputs| && (z in begun ==> z in done)
      ensures Fine(pb, s', done, begun, z, j)
    {
      assert Fine(pb, s, done, begun, z, j);
    }
  }

  /** A new node over clean inputs. */
  ghost predicate CleanNode(pb: Problem, s: State, begun: set<int>, n: Node) {
    && (forall j :: 0 <= j < |n.inputs| ==> Clean(s, n.inputs[j]))
    && (n.op.Transpose? ==> |n.inputs| == 1 && (n.inputs[0].node in pb.g ==> n.inputs[0].node in begun))
  }

  lemma AddTidy(pb: Problem, s: State, done: set<int>, begun: set<int>, n: Node)
    requires Tidy(pb, s, done, begun) && CleanNode(pb, s, begun, n)
    ensures Tidy(pb, AddNode(s, n), done, begun)
    ensures forall u :: Idle(pb, s, done, u) ==> Idle(pb, AddNode(s, n), done, u)
  {
    hide Wanted;
    var s' := AddNode(s, n);
    assert s.nextId !in s.g && s.nextId !in pb.g;
    forall z, j | z in s'.g && 0 <= j < |s'.g[z].inputs| && (z in begun ==> z in done)
      ensures Fine(pb, s', done, begun, z, j)
    {
      if z == s.nextId {
        assert Clean(s, n.inputs[j]);
      } else {
        assert Fine(pb, s, done, begun, z, j);
      }
    }
    forall u | Idle(pb, s, done, u) ensures Idle(pb, s', done, u) {
      forall z, j | z in s'.g && 0 <= j < |s'.g[z].inputs| && Served(pb, done, z, j)
        ensures s'.g[z].inputs[j].node != u
      {
        assert z in s.g && s'.g[z] == s.g[z];
      }
    }
  }

  lemma NewStands(pb: Problem, s: State, done: set<int>, begun: set<int>, n: Node)
    requires Tidy(pb, s, done, begun) && done <= begun && n.op.Transpose?
    ensures Standing(pb, AddNode(s, n), Output(s.nextId, 0)) && Idle(pb, AddNode(s, n), done, s.nextId)
  {
    hide Wanted;
    var s', y := AddNode(s, n), s.nextId;
    assert y !in s.g && y !in pb.g;
    forall z, j | z in s'.g && 0 <= j < |s'.g[z].inputs| && Served(pb, done, z, j)
      ensures s'.g[z].inputs[j].node != y
    {
      assert z in s.g && s'.g[z] == s.g[z];
      assert Fine(pb, s, done, begun, z, j);
    }
  }

  /** Another input for the node being processed. */
  lemma SetInputTidy(pb: Problem, s: State, done: set<int>, begun: set<int>, x: int, j: int, o: Output)
    requires Tidy(pb, s, done, begun) && x in begun && x !in done && x in pb.g && x in s.g && 0 <= j < |s.g[x].inputs|
    ensures Tidy(pb, SetInput(s, x, j, o), done, begun)
    ensures forall u :: Idle(pb, s, done, u) ==> Idle(pb, SetInput(s, x, j, o), done, u)
  {
    hide Wanted;
    var s' := SetInput(s, x, j, o);
    forall z, i | z in s'.g && 0 <= i < |s'.g[z].inputs| && (z in begun ==> z in done)
      ensures Fine(pb, s', done, begun, z, i)
    {
      assert z != x && Fine(pb, s, done, begun, z, i);
    }
    forall u | Idle(pb, s, done, u) ensures Idle(pb, s', done, u) {
      forall z, i | z in s'.g && 0 <= i < |s'.g[z].inputs| && Served(pb, done, z, i)
        ensures s'.g[z].inputs[i].node != u
      {
        assert z != x && s'.g[z] == s.g[z];
      }
    }
  }

  /** Processing x begins; it is no transpose. */
  lemma BeginTidy(pb: Problem, s: State, done: set<int>, x: int)
    requires Tidy(pb, s, done, done) && x in s.g && x !in done && !s.g[x].op.Transpose?
    ensures Tidy(pb, s, done, done + {x})
  {
    hide Wanted;
    forall z, j | z in s.g && 0 <= j < |s.g[z].inputs| && (z in done + {x} ==> z in done)
      ensures Fine(pb, s, done, done + {x}, z, j)
    {
      assert Fine(pb, s, done, done, z, j);
    }
  }

  /** Processing x ends: its inputs have their transposes. */
  lemma EndTidy(pb: Problem, s: State, done: set<int>, x: int)
    requires Tidy(pb, s, done, done + {x}) && x in s.g && x !in done && x in pb.g
    requires forall j :: 0 <= j < |s.g[x].inputs| ==>
               if Wanted(pb.g, pb.found, x, j) then Standing(pb, s, s.g[x].inputs[j]) else Clean(s, s.g[x].inputs[j])
    ensures Tidy(pb, s, done + {x}, done + {x})
  {
    hide Wanted;
    forall z, j | z in s.g && 0 <= j < |s.g[z].inputs| ensures Fine(pb, s, done + {x}, done + {x}, z, j) {
      if z != x {
        assert z in done + {x} ==> z in done;
        assert Fine(pb, s, done, done + {x}, z, j);
      }
    }
  }

  /** Node y takes the place of x, which is materialized neither now nor later. */
  lemma RewireTidy(pb: Problem, s: State, done: set<int>, x: int, y: int)
    requires Tidy(pb, s, done, done) && x in pb.g && x in s.g && x !in done
    requires Clean(s, Output(y, 0)) && forall j :: !Wanted(pb.g, pb.found, x, j)
    ensures Tidy(pb, Rewired(s, x, y), done + {x}, done + {x})
    ensures forall u :: Idle(pb, s, done, u) ==> Idle(pb, Rewired(s, x, y), done + {x}, u)
  {
    hide Wanted;
    var s' := Rewired(s, x, y);
    forall z | z in s'.g ensures SameKind(s.g[z], s'.g[z]) {
      RewiredNode(s, x, y, z);
    }
    forall z, j | z in s'.g && 0 <= j < |s'.g[z].inputs|
      ensures Fine(pb, s', done + {x}, done + {x}, z, j)
      ensures Served(pb, done + {x}, z, j) ==> s'.g[z].inputs[j] == s.g[z].inputs[j]
    {
      assert Fine(pb, s, done, done, z, j);
      assert s'.g[z].inputs[j] == Redirect(s.g[z].inputs[j], x, y);
    }
    forall u | Idle(pb, s, done, u) ensures Idle(pb, s', done + {x}, u) {
      forall z, j | z in s'.g && 0 <= j < |s'.g[z].inputs| && Served(pb, done + {x}, z, j)
        ensures s'.g[z].inputs[j].node != u
      {
        assert Served(pb, done, z, j) && s'.g[z].inputs[j] == s.g[z].inputs[j];
      }
    }
  }

  // ---------- what is known when a node is next ----------

  /** Input j of x is clean, and no node that waits. */
  ghost predicate InputClean(pb: Problem, s: State, done: set<int>, x: int, j: int) {
    && x in s.g && 0 <= j < |s.g[x].inputs| && Clean(s, s.g[x].inputs[j])
    && (s.g[x].inputs[j].node in pb.g ==> s.g[x].inputs[j].node in done) && s.g[x].inputs[j] in s.reorders
  }

  lemma WaitingUnsettled(pb: Problem, s: State, tr: Trace, done: set<int>, begun: set<int>, z: int)
    requires Inv(pb, s, tr, done, begun) && z in pb.g && z !in begun
    ensures z !in tr.level
  {
    hide CurDomain, AllCorrespond, AllSettled, AllOpaqueKept, PendingMarked, Fresh;
    assert Waiting(pb, s, tr, z);
  }

  lemma ReadyClean(pb: Problem, s: State, tr: Trace, done: set<int>, x: int, j: int)
    requires Ready(pb, s, tr, done, x) && Tidy(pb, s, done, done) && x in s.g && 0 <= j < |s.g[x].inputs|
    ensures InputClean(pb, s, done, x, j)
  {
    hide Inv, Ready, Problem.WellFormed, Wanted, Usable, Grounded, InputFound;
    ReadyFacts(pb, s, tr, done, x);
    InputAt(pb, s, tr, done, x, j);
    FoundUsable(pb, s, tr, x, j);
    UsableMeans(pb, s, tr, s.g[x].inputs[j]);
    NowOnlySettled(pb, s, tr, done, done + {x});
    var t := s.g[x].inputs[j].node;
    if t in pb.g && t !in done && t != x {
      WaitingUnsettled(pb, s, tr, done, done + {x}, t);
    }
    assert Fine(pb, s, done, done, x, j);
  }

  /** What is held against input j of x is what was foretold. */
  ghost predicate InputForetold(pb: Problem, s: State, x: int, j: int) {
    && x in pb.g && x in s.g && 0 <= j < |s.g[x].inputs| == |pb.g[x].inputs|
    && s.OrderOf(s.g[x].inputs[j]) == pb.found(pb.g[x].inputs[j]).order
    && RankOf(s, s.g[x].inputs[j]) == |s.OrderOf(s.g[x].inputs[j])|
  }

  ghost predicate Next(pb: Problem, s: State, done: set<int>, x: int) {
    && Tidy(pb, s, done, done) && x in s.g && x in pb.g && x !in done && SameKind(s.g[x], pb.g[x])
    && forall j :: 0 <= j < |s.g[x].inputs| ==> InputClean(pb, s, done, x, j) && InputForetold(pb, s, x, j)
  }

  lemma FoundForetold(pb: Problem, s: State, tr: Trace, x: int, j: int)
    requires InputFound(pb, s, tr, x, j)
    ensures InputForetold(pb, s, x, j)
  {
    hide Permute, IsPermutation;
  }

  lemma ReadyIsNext(pb: Problem, s: State, tr: Trace, done: set<int>, x: int)
    requires Ready(pb, s, tr, done, x) && Tidy(pb, s, done, done)
    ensures Next(pb, s, done, x)
  {
    hide Ready, Inv, Tidy, InputFound, InputClean, Problem.WellFormed;
    ReadyFacts(pb, s, tr, done, x);
    forall j | 0 <= j < |s.g[x].inputs| ensures InputClean(pb, s, done, x, j) && InputForetold(pb, s, x, j) {
      ReadyClean(pb, s, tr, done, x, j);
      InputAt(pb, s, tr, done, x, j);
      FoundForetold(pb, s, tr, x, j);
    }
  }

  lemma NextPending(pb: Problem, s: State, done: set<int>, x: int)
    requires Next(pb, s, done, x)
    ensures x in s.g && forall j :: 0 <= j < |s.g[x].inputs| ==> s.g[x].inputs[j] in s.reorders
  {
    hide Tidy, InputForetold;
    forall j | 0 <= j < |s.g[x].inputs| ensures s.g[x].inputs[j] in s.reorders {
      assert InputClean(pb, s, done, x, j);
    }
  }

  // ---------- the operations ----------

  lemma CleanStays(s: State, s': State, o: Output)
    requires Clean(s, o) && s.toDelete <= s'.toDelete
    requires forall z :: z in s.g ==> z in s'.g && s'.g[z].op == s.g[z].op
    ensures Clean(s', o)
  {
  }

  lemma TransposeTidy(pb: Problem, s: State, done: set<int>, x: int, r: Order)
    requires Next(pb, s, done, x) && s.g[x].op.Transpose? && |s.g[x].inputs| == 1
    ensures s.g[x].inputs[0] in s.reorders && Tidy(pb, TransposeSunk(s, x, r), done + {x}, done + {x})
  {
    hide Tidy, Idle, Rewired, Standing, Grounded;
    assert InputClean(pb, s, done, x, 0);
    var c, y := s.g[x].inputs[0], s.nextId;
    PendingIdle(pb, s, done, done, c);
    MarkTidy(pb, s, done, done, s.reorders[c]);
    var s1 := Mark(s, s.reorders[c]);
    var n := TransposeNode(s1, c, r);
    CleanStays(s, s1, c);
    AddTidy(pb, s1, done, done, n);
    NewStands(pb, s1, done, done, n);
    var s2 := AddNode(s1, n);
    MarkTidy(pb, s2, done, done, y);
    PendTidy(pb, Mark(s2, y), done, done, Output(y, 0), y);
    RewireTidy(pb, Bypassed(s1, c, r), done, x, y);
  }

  lemma UnaryTidy(pb: Problem, s: State, done: set<int>, x: int)
    requires Next(pb, s, done, x) && s.g[x].op.Unary? && |s.g[x].inputs| == 1
    ensures s.g[x].inputs[0] in s.reorders
    ensures Tidy(pb, Pend(s, Output(x, 0), s.reorders[s.g[x].inputs[0]]), done + {x}, done + {x})
  {
    hide Tidy, Idle, Standing, Grounded;
    assert InputClean(pb, s, done, x, 0);
    var t := s.reorders[s.g[x].inputs[0]];
    PendingIdle(pb, s, done, done, s.g[x].inputs[0]);
    BeginTidy(pb, s, done, x);
    PendTidy(pb, s, done, done + {x}, Output(x, 0), t);
    EndTidy(pb, Pend(s, Output(x, 0), t), done, x);
  }

  /** The transposes of both inputs are marked; neither is wanted. */
  lemma PropagatedTidy(pb: Problem, s: State, done: set<int>, x: int, t: int)
    requires Next(pb, s, done, x) && s.g[x].op.Binary? && |s.g[x].inputs| == 2
    requires s.g[x].inputs[0] in s.reorders && s.g[x].inputs[1] in s.reorders
    requires t == s.reorders[s.g[x].inputs[0]] || t == s.reorders[s.g[x].inputs[1]]
    requires Alike(s.OrderOf(s.g[x].inputs[0]), s.OrderOf(s.g[x].inputs[1]))
    ensures Tidy(pb, BinaryPropagated(s, x, t), done + {x}, done + {x})
  {
    hide Tidy, Idle, Standing, Grounded, Default;
    var left, right := s.g[x].inputs[0], s.g[x].inputs[1];
    assert InputForetold(pb, s, x, 0) && InputForetold(pb, s, x, 1);
    assert InputClean(pb, s, done, x, 0) && InputClean(pb, s, done, x, 1);
    PendingIdle(pb, s, done, done, left);
    PendingIdle(pb, s, done, done, right);
    BeginTidy(pb, s, done, x);
    PendTidy(pb, s, done, done + {x}, Output(x, 0), t);
    var s1 := Pend(s, Output(x, 0), t);
    MarkTidy(pb, s1, done, done + {x}, s.reorders[left]);
    var s2 := Mark(s1, s.reorders[left]);
    MarkTidy(pb, s2, done, done + {x}, s.reorders[right]);
    EndTidy(pb, BinaryPropagated(s, x, t), done, x);
  }

  lemma StandsStill(pb: Problem, s: State, c: Output, t: int, o: Output)
    requires Standing(pb, s, o) && t != o.node
    ensures Standing(pb, Mark(s, t), o) && Standing(pb, Pend(s, c, t), o)
  {
  }

  lemma InsertedStands(pb: Problem, s: State, x: int, j: nat, o: Output)
    requires x in s.g && j < |s.g[x].inputs| && x in pb.g && Standing(pb, s, o)
    ensures Standing(pb, SetInput(s, x, j, o), o)
  {
  }

  /** A node that is inserted in front of x. */
  lemma InsertTidy(pb: Problem, s: State, done: set<int>, x: int, j: nat, n: Node)
    requires Tidy(pb, s, done, done + {x}) && CleanNode(pb, s, done + {x}, n) && x !in done && x in pb.g && x in s.g
    requires x != s.nextId && j < |s.g[x].inputs|
    ensures var s' := Inserted(s, x, j, n);
            && Tidy(pb, s', done, done + {x})
            && (if n.op.Transpose? then Standing(pb, s', Output(s.nextId, 0)) else Clean(s', Output(s.nextId, 0)))
    ensures forall u :: Idle(pb, s, done, u) ==> Idle(pb, Inserted(s, x, j, n), done, u)
  {
    hide Tidy, Idle, Standing, Grounded;
    var s1, y := AddNode(s, n), s.nextId;
    AddTidy(pb, s, done, done + {x}, n);
    if n.op.Transpose? {
      NewStands(pb, s, done, done + {x}, n);
      InsertedStands(pb, s1, x, j, Output(y, 0));
    }
    SetInputTidy(pb, s1, done, done + {x}, x, j, Output(y, 0));
  }

  lemma NextIdFree(pb: Problem, s: State, done: set<int>, t: int)
    requires Tidy(pb, s, done, done) && Idle(pb, s, done, t)
    ensures t != s.nextId && s.nextId !in s.g
  {
  }

  lemma InsertedOps(s: State, x: int, j: nat, n: Node)
    requires x in s.g && s.nextId !in s.g && j < |s.g[x].inputs|
    ensures forall z :: z in s.g ==> z in Inserted(s, x, j, n).g && Inserted(s, x, j, n).g[z].op == s.g[z].op
  {
  }

  /** Transpose t is marked and moves to the output of x. */
  lemma PassOn(pb: Problem, s: State, done: set<int>, x: int, t: int)
    requires Tidy(pb, s, done, done + {x}) && Idle(pb, s, done, t)
    ensures var s' := Pend(Mark(s, t), Output(x, 0), t);
            && Tidy(pb, s', done, done + {x})
            && (forall o :: Standing(pb, s, o) && o.node != t ==> Standing(pb, s', o))
            && (forall o :: Clean(s, o) ==> Clean(s', o))
  {
    hide Tidy;
    MarkTidy(pb, s, done, done + {x}, t);
    PendTidy(pb, Mark(s, t), done, done + {x}, Output(x, 0), t);
  }

  /** A binary operation with a transpose wanted in front of input j, or a reshape. */
  lemma ConvertedWants(pb: Problem, s: State, x: int, j: nat)
    requires x in pb.g && x in s.g && pb.g[x].op.Binary? && |pb.g[x].inputs| == |s.g[x].inputs| == 2 && j < 2
    requires InputForetold(pb, s, x, 0) && InputForetold(pb, s, x, 1) && IsDefault(s.OrderOf(s.g[x].inputs[j]))
    requires !IsDefault(s.OrderOf(s.g[x].inputs[1 - j]))
    ensures !Wanted(pb.g, pb.found, x, 1 - j)
    ensures Wanted(pb.g, pb.found, x, j)
       <==> |s.OrderOf(s.g[x].inputs[j])| == |s.OrderOf(s.g[x].inputs[1 - j])|
  {
    hide Default;
  }

  /** What x reads once input j is converted: a new transpose or a reshape, and the other input as before. */
  lemma ConvertedReads(pb: Problem, s: State, done: set<int>, x: int, j: nat, right: Output)
    requires Next(pb, s, done, x) && s.g[x].op.Binary? && |s.g[x].inputs| == 2 && j < 2 && x != s.nextId
    requires right == s.g[x].inputs[1 - j] && right in s.reorders
    ensures var s' := BinaryConverted(s, x, j, right);
            && Tidy(pb, s', done, done + {x}) && x in s'.g && s'.g[x].inputs == s.g[x].inputs[j := Output(s.nextId, 0)]
            && Clean(s', right)
            && if Matching(s, s.g[x].inputs[j], s.OrderOf(right)).op.Transpose?
                 then Standing(pb, s', Output(s.nextId, 0))
               else Clean(s', Output(s.nextId, 0))
  {
    hide Tidy, Idle, Standing, Grounded, InputForetold, Matching;
    assert InputClean(pb, s, done, x, j) && InputClean(pb, s, done, x, 1 - j);
    var t, n := s.reorders[right], Matching(s, s.g[x].inputs[j], s.OrderOf(right));
    assert n.inputs == [s.g[x].inputs[j]] by { MatchingReads(s, s.g[x].inputs[j], s.OrderOf(right)); }
    BeginTidy(pb, s, done, x);
    PendingIdle(pb, s, done, done, right);
    InsertTidy(pb, s, done, x, j, n);
    NextIdFree(pb, s, done, t);
    InsertedOps(s, x, j, n);
    CleanStays(s, Inserted(s, x, j, n), right);
    PassOn(pb, Inserted(s, x, j, n), done, x, t);
  }

  lemma MatchingReads(s: State, left: Output, q: Order)
    ensures Matching(s, left, q).inputs == [left]
    ensures Matching(s, left, q).op.Transpose? <==> RankOf(s, left) >= |q|
  {
  }

  lemma ConvertedTidy(pb: Problem, s: State, done: set<int>, x: int, j: nat, left: Output, right: Output)
    requires Next(pb, s, done, x) && s.g[x].op.Binary? && |s.g[x].inputs| == 2 && j < 2 && x != s.nextId
    requires left == s.g[x].inputs[j] && right == s.g[x].inputs[1 - j] && right in s.reorders
    requires IsDefault(s.OrderOf(left)) && !IsDefault(s.OrderOf(right))
    requires |s.OrderOf(left)| <= |s.OrderOf(right)|
    ensures Tidy(pb, BinaryConverted(s, x, j, right), done + {x}, done + {x})
  {
    hide Tidy, Standing, Default, Wanted, Matching, BinaryConverted, InputClean, Clean;
    assert InputForetold(pb, s, x, 0) && InputForetold(pb, s, x, 1);
    ConvertedWants(pb, s, x, j);
    MatchingReads(s, left, s.OrderOf(right));
    ConvertedReads(pb, s, done, x, j, right);
    EndTidy(pb, BinaryConverted(s, x, j, right), done, x);
  }

  /** A node that takes the place of x, with a new transpose pending for it. */
  lemma ReplacedTidy(pb: Problem, s: State, done: set<int>, x: int, n: Node, p: Order)
    requires Tidy(pb, s, done, done) && CleanNode(pb, s, done, n) && !n.op.Transpose?
    requires x in pb.g && x in s.g && x !in done && forall j :: !Wanted(pb.g, pb.found, x, j)
    ensures Tidy(pb, Replaced(s, x, n, p), done + {x}, done + {x})
  {
    hide Tidy, Idle, Standing, Wanted, Rewired, Grounded, Reordered;
    var s1, y := AddNode(s, n), s.nextId;
    AddTidy(pb, s, done, done, n);
    RewireTidy(pb, s1, done, x, y);
    var s2, t := Rewired(s1, x, y), TransposeNode(s1, Output(y, 0), p);
    RewiredNode(s1, x, y, y);
    RewiredNext(s1, x, y);
    FreshUnknown(pb, s, done);
    AddTidy(pb, s2, done + {x}, done + {x}, t);
    NewStands(pb, s2, done + {x}, done + {x}, t);
    PendTidy(pb, AddNode(s2, t), done + {x}, done + {x}, Output(y, 0), y + 1);
  }

  lemma RewiredNext(s: State, x: int, y: int)
    ensures Rewired(s, x, y).nextId == s.nextId
  {
  }

  lemma FreshUnknown(pb: Problem, s: State, done: set<int>)
    requires Tidy(pb, s, done, done)
    ensures s.nextId !in pb.g && s.nextId !in s.g
  {
  }

  lemma PadTidy(pb: Problem, s: State, done: set<int>, x: int, p: Order)
    requires Next(pb, s, done, x) && s.g[x].op.Pad? && |s.g[x].inputs| == 2
    requires |s.g[x].op.begin| == |s.g[x].op.end| == |p| && InRange(Inverse(p))
    ensures Tidy(pb, Replaced(s, x, MovedPad(s, s.g[x], p), p), done + {x}, done + {x})
  {
    hide Tidy, Inverse, PadMoved;
    assert InputClean(pb, s, done, x, 0) && InputClean(pb, s, done, x, 1);
    ReplacedTidy(pb, s, done, x, MovedPad(s, s.g[x], p), p);
  }

  lemma ConcatTidy(pb: Problem, s: State, done: set<int>, x: int, p: Order)
    requires Next(pb, s, done, x) && s.g[x].op.Concat? && s.g[x].op.axis < |p|
    requires forall j :: 0 <= j < |s.g[x].inputs| ==> s.OrderOf(s.g[x].inputs[j]) == p
    ensures Tidy(pb, Replaced(s, x, MovedConcat(s, s.g[x], p), p), done + {x}, done + {x})
  {
    hide Tidy, ConcatMoved, Default;
    var n := MovedConcat(s, s.g[x], p);
    forall j | 0 <= j < |s.g[x].inputs| ensures Clean(s, s.g[x].inputs[j]) && pb.found(pb.g[x].inputs[j]).order == p {
      assert InputClean(pb, s, done, x, j) && InputForetold(pb, s, x, j);
    }
    ReplacedTidy(pb, s, done, x, n, p);
  }

  // ---------- materializing ----------

  lemma DefaultTidy(pb: Problem, s: State, done: set<int>, x: int, k: nat)
    requires Tidy(pb, s, done, done + {x}) && x in s.g && !s.g[x].op.Transpose?
    ensures Tidy(pb, DefaultPended(s, x, k), done, done + {x})
  {
    hide Tidy, Idle, Standing, Grounded, Reordered, Default;
    var n, y := TransposeNode(s, Output(x, k), Default(RankOf(s, Output(x, k)))), s.nextId;
    AddTidy(pb, s, done, done + {x}, n);
    NewStands(pb, s, done, done + {x}, n);
    PendTidy(pb, AddNode(s, n), done, done + {x}, Output(x, k), y);
  }

  /** Every node stays, with its operation, and every mark. */
  ghost predicate SameBut(s: State, s': State) {
    && s.toDelete <= s'.toDelete && (forall z :: z in s.g ==> z in s'.g && s'.g[z].op == s.g[z].op)
  }

  lemma {:induction false} DefaultsTidy(pb: Problem, s: State, done: set<int>, x: int, k: nat)
    requires Tidy(pb, s, done, done + {x}) && x in s.g && !s.g[x].op.Transpose? && x < s.nextId
    ensures var r := DefaultsPended(s, x, k);
            Tidy(pb, r, done, done + {x}) && x in r.g && r.g[x] == s.g[x] && SameBut(s, r)
  {
    hide Tidy, DefaultPended;
    if k > 0 {
      DefaultsTidy(pb, s, done, x, k - 1);
      DefaultsPendedNode(s, x, k - 1);
      DefaultTidy(pb, DefaultsPended(s, x, k - 1), done, x, k - 1);
      DefaultOps(pb, DefaultsPended(s, x, k - 1), done, x, k - 1);
    }
  }

  lemma DefaultOps(pb: Problem, s: State, done: set<int>, x: int, k: nat)
    requires Tidy(pb, s, done, done + {x}) && x in s.g
    ensures var r := DefaultPended(s, x, k); x in r.g && r.g[x] == s.g[x] && SameBut(s, r)
  {
    hide Default, Reordered;
  }

  /** Which inputs a node that is materialized finds in its place. */
  ghost predicate WantsMoved(pb: Problem, x: int) {
    forall j :: x in pb.g && 0 <= j < |pb.g[x].inputs| ==>
      var p := pb.found(pb.g[x].inputs[j]).order; Wanted(pb.g, pb.found, x, j) <==> p != Default(|p|)
  }

  /** The first j inputs of x have their transposes, the others are still clean. */
  ghost predicate Supplied(pb: Problem, s: State, done: set<int>, x: int, j: nat) {
    && Tidy(pb, s, done, done + {x}) && x in s.g && x in pb.g && x !in done
    && |s.g[x].inputs| == |pb.g[x].inputs|
    && (forall i :: 0 <= i < j && i < |s.g[x].inputs| ==>
          if Wanted(pb.g, pb.found, x, i) then Standing(pb, s, s.g[x].inputs[i]) else Clean(s, s.g[x].inputs[i]))
    && (forall i :: j <= i < |s.g[x].inputs| ==> Clean(s, s.g[x].inputs[i]) && Begun(pb, done, x, s.g[x].inputs[i]))
  }

  ghost predicate Begun(pb: Problem, done: set<int>, x: int, o: Output) {
    o.node in pb.g ==> o.node in done + {x}
  }

  lemma SuppliedMore(pb: Problem, s: State, s': State, done: set<int>, x: int, j: nat)
    requires Supplied(pb, s, done, x, j) && Tidy(pb, s', done, done + {x}) && SameBut(s, s')
    requires x in s'.g && j < |s.g[x].inputs| == |s'.g[x].inputs|
    requires forall i :: 0 <= i < |s.g[x].inputs| && i != j ==> s'.g[x].inputs[i] == s.g[x].inputs[i]
    requires forall i :: 0 <= i < j && Standing(pb, s, s.g[x].inputs[i]) ==> Standing(pb, s', s.g[x].inputs[i])
    requires if Wanted(pb.g, pb.found, x, j) then Standing(pb, s', s'.g[x].inputs[j]) else Clean(s', s'.g[x].inputs[j])
    ensures Supplied(pb, s', done, x, j + 1)
  {
    hide Tidy, Wanted, Standing;
  }

  lemma OthersStand(pb: Problem, s: State, done: set<int>, x: int, j: nat, n: Node, o: Output)
    requires Tidy(pb, s, done, done + {x}) && x in s.g && x in pb.g && x != s.nextId && j < |s.g[x].inputs|
    requires Standing(pb, s, o)
    ensures Standing(pb, Inserted(s, x, j, n), o)
  {
  }

  lemma InsertedNode(pb: Problem, s: State, done: set<int>, x: int, j: nat, n: Node)
    requires Tidy(pb, s, done, done + {x}) && x in s.g && x != s.nextId && j < |s.g[x].inputs|
    ensures var s' := Inserted(s, x, j, n);
            && SameBut(s, s') && x in s'.g && s'.g[x].inputs == s.g[x].inputs[j := Output(s.nextId, 0)]
  {
  }

  /** The pending transpose of input j is marked; the input is found in its place. */
  lemma PassedTidy(pb: Problem, s: State, done: set<int>, x: int, j: nat)
    requires Supplied(pb, s, done, x, j) && j < |s.g[x].inputs| && s.g[x].inputs[j] in s.reorders
    requires !Wanted(pb.g, pb.found, x, j)
    ensures Supplied(pb, Mark(s, s.reorders[s.g[x].inputs[j]]), done, x, j + 1)
  {
    hide Tidy, Wanted, Idle, Grounded;
    var t := s.reorders[s.g[x].inputs[j]];
    PendingIdle(pb, s, done, done + {x}, s.g[x].inputs[j]);
    MarkTidy(pb, s, done, done + {x}, t);
    SuppliedMore(pb, s, Mark(s, t), done, x, j);
  }

  /** A transpose is put in front of input j. */
  lemma PutTidy(pb: Problem, s: State, done: set<int>, x: int, j: nat, c: Output, p: Order)
    requires Supplied(pb, s, done, x, j) && j < |s.g[x].inputs| && c == s.g[x].inputs[j] && c in s.reorders
    requires Wanted(pb.g, pb.found, x, j) && x != s.nextId
    ensures Supplied(pb, Materialized(Mark(s, s.reorders[c]), x, j, Output(c.node, 0), p), done, x, j + 1)
  {
    hide Tidy, Wanted, Idle, Grounded, Standing, Inserted, Reordered;
    var t := s.reorders[c];
    PendingIdle(pb, s, done, done + {x}, c);
    MarkTidy(pb, s, done, done + {x}, t);
    var s1 := Mark(s, t);
    var n := TransposeNode(s1, Output(c.node, 0), p);
    InsertTidy(pb, s1, done, x, j, n);
    InsertedNode(pb, s1, done, x, j, n);
    forall i | 0 <= i < j && Standing(pb, s, s.g[x].inputs[i])
      ensures Standing(pb, Inserted(s1, x, j, n), s.g[x].inputs[i])
    {
      PendingNotStanding(pb, s, c, s.g[x].inputs[i]);
      StandsStill(pb, s, c, t, s.g[x].inputs[i]);
      OthersStand(pb, s1, done, x, j, n, s.g[x].inputs[i]);
    }
    SuppliedMore(pb, s, Inserted(s1, x, j, n), done, x, j);
  }

  lemma PendingNotStanding(pb: Problem, s: State, c: Output, o: Output)
    requires Standing(pb, s, o) && c in s.reorders
    ensures s.reorders[c] != o.node
  {
  }

  lemma InputTidy(pb: Problem, s: State, done: set<int>, x: int, j: nat)
    requires Supplied(pb, s, done, x, j) && j < |s.g[x].inputs| && WantsMoved(pb, x) && x < s.nextId
    requires InputForetold(pb, s, x, j) && s.g[x].inputs[j] in s.reorders
    ensures Supplied(pb, InputMaterialized(s, x, j), done, x, j + 1)
  {
    hide Supplied, Wanted, Default, Materialized;
    var c := s.g[x].inputs[j];
    if s.OrderOf(c) == Default(RankOf(s, c)) {
      PassedTidy(pb, s, done, x, j);
    } else {
      PutTidy(pb, s, done, x, j, c, s.OrderOf(c));
    }
  }

  lemma FoundReorders(pb: Problem, s: State, tr: Trace, x: int, j: int)
    requires InputFound(pb, s, tr, x, j)
    ensures s.g[x].inputs[j] in s.reorders && InputForetold(pb, s, x, j)
  {
    hide Permute, IsPermutation;
  }

  lemma ProgressFound(pb: Problem, s: State, tr: Trace, done: set<int>, x: int, j: nat)
    requires Progress(pb, s, tr, done, x, j) && x in s.g && j < |s.g[x].inputs|
    ensures InputFound(pb, s, tr, x, j) && x < s.nextId
  {
    hide Inv, InputFound, InputRestored, DefaultsAt;
  }

  lemma {:induction false} InputsTidy(pb: Problem, s: State, tr: Trace, done: set<int>, x: int, j: nat)
    requires Progress(pb, s, tr, done, x, 0) && x in s.g && x < s.nextId && j <= |s.g[x].inputs|
    requires Supplied(pb, s, done, x, 0) && WantsMoved(pb, x)
    ensures Supplied(pb, InputsMaterialized(s, x, j), done, x, j)
  {
    hide Progress, Supplied, WantsMoved, InputMaterialized, InputFound;
    if j > 0 {
      InputsTidy(pb, s, tr, done, x, j - 1);
      var tr' := InputsStep(pb, s, tr, done, x, j - 1);
      var s' := InputsMaterialized(s, x, j - 1);
      ProgressFound(pb, s', tr', done, x, j - 1);
      FoundReorders(pb, s', tr', x, j - 1);
      InputTidy(pb, s', done, x, j - 1);
    }
  }

  lemma NextSupplied(pb: Problem, s: State, done: set<int>, x: int)
    requires Next(pb, s, done, x) && !s.g[x].op.Transpose? && x < s.nextId
    ensures x in DefaultsPended(s, x, |s.g[x].shapes|).g
    ensures Supplied(pb, DefaultsPended(s, x, |s.g[x].shapes|), done, x, 0)
  {
    hide Tidy, DefaultsPended, Clean;
    BeginTidy(pb, s, done, x);
    DefaultsTidy(pb, s, done, x, |s.g[x].shapes|);
    var r := DefaultsPended(s, x, |s.g[x].shapes|);
    forall i | 0 <= i < |r.g[x].inputs| ensures Clean(r, r.g[x].inputs[i]) && Begun(pb, done, x, r.g[x].inputs[i]) {
      assert InputClean(pb, s, done, x, i);
      CleanStays(s, r, s.g[x].inputs[i]);
    }
  }

  lemma MaterializeTidy(pb: Problem, s: State, tr: Trace, done: set<int>, x: int)
    requires Ready(pb, s, tr, done, x) && Next(pb, s, done, x) && !s.g[x].op.Transpose? && x < s.nextId
    requires WantsMoved(pb, x)
    ensures Tidy(pb, NodeMaterialized(s, x), done + {x}, done + {x})
  {
    ReadyProgress(pb, s, tr, done, x);
    hide Ready, Next, Progress, DefaultsPended, InputsMaterialized, Tidy, WantsMoved, Wanted, Standing, Clean;
    var r, n := DefaultsPended(s, x, |s.g[x].shapes|), |s.g[x].inputs|;
    NextSupplied(pb, s, done, x);
    InputsTidy(pb, r, tr, done, x, n);
    EndTidy(pb, InputsMaterialized(r, x, n), done, x);
  }

  // ---------- bypassing the marked transposes ----------

  /** A transpose is read where one is wanted, and a marked one elsewhere, unless it is purged already. */
  ghost predicate Remains(pb: Problem, s: State, purged: set<int>, z: int, j: int)
    requires z in s.g && 0 <= j < |s.g[z].inputs|
  {
    var o := s.g[z].inputs[j];
    && o.node in s.g
    && if Wanted(pb.g, pb.found, z, j) then s.g[o.node].op.Transpose? && o.node !in pb.g && o.node !in s.toDelete
       else s.g[o.node].op.Transpose? ==> o.slot == 0 && o.node in s.toDelete && o.node !in purged
  }

  ghost predicate Residual(pb: Problem, s: State, purged: set<int>) {
    && (forall t :: t in s.toDelete ==>
          t in s.g && t !in pb.g && s.g[t].op.Transpose? && |s.g[t].inputs| == 1 && s.g[t].inputs[0].node < t)
    && forall z, j :: z in s.g && 0 <= j < |s.g[z].inputs| ==> Remains(pb, s, purged, z, j)
  }

  lemma TidyResidual(pb: Problem, s: State, done: set<int>)
    requires Tidy(pb, s, done, done) && forall x :: x in pb.g ==> x in done
    ensures Residual(pb, s, {})
  {
    forall z, j | z in s.g && 0 <= j < |s.g[z].inputs| ensures Remains(pb, s, {}, z, j) {
      assert Fine(pb, s, done, done, z, j);
    }
  }

  lemma ResidualStep(pb: Problem, s: State, purged: set<int>, t: int)
    requires Residual(pb, s, purged) && t in s.toDelete
    ensures t in s.g && |s.g[t].inputs| > 0 && Residual(pb, Purged(s, t), purged + {t})
  {
    hide Wanted;
    assert Remains(pb, s, purged, t, 0);
    NewUnwanted(pb, t);
    var s' := Purged(s, t);
    forall z, j | z in s'.g && 0 <= j < |s'.g[z].inputs| ensures Remains(pb, s', purged + {t}, z, j) {
      assert Remains(pb, s, purged, z, j);
    }
  }

  lemma NewUnwanted(pb: Problem, t: int)
    requires t !in pb.g
    ensures forall j :: !Wanted(pb.g, pb.found, t, j)
  {
  }

  predicate TransposeAt(g: Graph, t: int) {
    t in g && g[t].op.Transpose?
  }

  /** In graph g a transpose is read exactly where one is wanted, and it is not one of those before the pass. */
  ghost predicate OnlyWanted(f: Graph, found: Output -> Found, g: Graph) {
    forall z, j :: z in g && 0 <= j < |g[z].inputs| ==>
      && (Wanted(f, found, z, j) <==> TransposeAt(g, g[z].inputs[j].node))
      && (TransposeAt(g, g[z].inputs[j].node) ==> g[z].inputs[j].node !in f)
  }

  lemma ResidualPurged(pb: Problem, s: State)
    requires Residual(pb, s, s.toDelete)
    ensures OnlyWanted(pb.g, pb.found, s.g)
  {
    forall z, j | z in s.g && 0 <= j < |s.g[z].inputs|
      ensures Wanted(pb.g, pb.found, z, j) <==> TransposeAt(s.g, s.g[z].inputs[j].node)
      ensures TransposeAt(s.g, s.g[z].inputs[j].node) ==> s.g[z].inputs[j].node !in pb.g
    {
      assert Remains(pb, s, s.toDelete, z, j);
    }
  }

  /** A transpose is only read by opaque nodes, concatenations and binary operations that were there before. */
  lemma ReadBy(f: Graph, found: Output -> Found, g: Graph)
    requires OnlyWanted(f, found, g)
    ensures forall z, j :: z in g && 0 <= j < |g[z].inputs| && TransposeAt(g, g[z].inputs[j].node) ==>
              z in f && g[z].inputs[j].node !in f && (f[z].op.Opaque? || f[z].op.Concat? || f[z].op.Binary?)
  {
    hide Default;
  }

  /** If opaque nodes find every input in its place and the others find theirs under one order, none is left. */
  lemma NoneWanted(f: Graph, found: Output -> Found, g: Graph)
    requires OnlyWanted(f, found, g)
    ensures (forall x, j :: x in f && 0 <= j < |f[x].inputs| ==>
               var p := found(f[x].inputs[j]).order;
               && (f[x].op.Opaque? ==> p == Default(|p|))
               && (f[x].op.Concat? || f[x].op.Binary? ==> p == found(f[x].inputs[0]).order)) ==>
              forall z, j :: z in g && 0 <= j < |g[z].inputs| ==> !TransposeAt(g, g[z].inputs[j].node)
  {
    hide Default;
  }
}
