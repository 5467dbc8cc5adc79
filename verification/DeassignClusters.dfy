/** Dissolving the clusters that are too small to be worth a call. */
module DeassignClusters {
  import opened Sets

  /** The nodes of cluster c. */
  ghost function NodesOf(tags: map<int, int>, c: int): (r: set<int>)
    ensures forall v :: v in r <==> v in tags && tags[v] == c
  {
    set v | v in tags && tags[v] == c
  }

  /** The operations that do not count; the second name is spelled as in the pass. */
  predicate Trivial(op: string) {
    op == "Const" || op == "Identitiy"
  }

  ghost function NonTrivial(nodes: set<int>, typeOf: int -> string): (r: set<int>)
    ensures forall v :: v in r <==> v in nodes && !Trivial(typeOf(v))
  {
    set v | v in nodes && !Trivial(typeOf(v))
  }

  /** The nodes by cluster, as far as they are in `done`. */
  ghost predicate Collected(tags: map<int, int>, done: set<int>, clusterMap: map<int, set<int>>) {
    && (forall c :: c in clusterMap ==> forall v :: v in clusterMap[c] <==> v in done && v in tags && tags[v] == c)
    && (forall v :: v in done && v in tags ==> tags[v] in clusterMap)
  }

  method CollectClusters(tags: map<int, int>) returns (clusterMap: map<int, set<int>>)
    ensures Collected(tags, tags.Keys, clusterMap)
  {
    clusterMap := map[];
    var rest := tags.Keys;
    while rest != {}
      invariant rest <= tags.Keys && Collected(tags, tags.Keys - rest, clusterMap)
      decreases |rest|
    {
      ghost var some := SomeMember(rest);
      var v :| v in rest;
      var c := tags[v];
      clusterMap := clusterMap[c := (if c in clusterMap then clusterMap[c] else {}) + {v}];
      rest := rest - {v};
    }
  }

  lemma CollectedNodes(tags: map<int, int>, clusterMap: map<int, set<int>>, c: int)
    requires Collected(tags, tags.Keys, clusterMap) && c in clusterMap
    ensures clusterMap[c] == NodesOf(tags, c)
  {
    var nodes := clusterMap[c];
    assert forall v :: v in nodes <==> v in tags.Keys && v in tags && tags[v] == c;
    SameMembers(nodes, NodesOf(tags, c));
  }

  method CountNonTrivial(nodes: set<int>, typeOf: int -> string) returns (count: nat)
    ensures count == |NonTrivial(nodes, typeOf)|
  {
    count := 0;
    var rest := nodes;
    while rest != {}
      invariant rest <= nodes && count == |NonTrivial(nodes - rest, typeOf)|
      decreases |rest|
    {
      ghost var some := SomeMember(rest);
      var v :| v in rest;
      OneMore(nodes, rest, typeOf, v);
      if !Trivial(typeOf(v)) {
        count := count + 1;
      }
      rest := rest - {v};
    }
    SameMembers(NonTrivial(nodes - rest, typeOf), NonTrivial(nodes, typeOf));
  }

  lemma OneMore(nodes: set<int>, rest: set<int>, typeOf: int -> string, v: int)
    requires v in rest && rest <= nodes
    ensures |NonTrivial(nodes - (rest - {v}), typeOf)|
         == |NonTrivial(nodes - rest, typeOf)| + if Trivial(typeOf(v)) then 0 else 1
  {
    var before, after := NonTrivial(nodes - rest, typeOf), NonTrivial(nodes - (rest - {v}), typeOf);
    if Trivial(typeOf(v)) {
      SameMembers(after, before);
    } else {
      SameMembers(after, before + {v});
    }
  }

  /** Cluster c is large enough. */
  ghost predicate Large(tags: map<int, int>, typeOf: int -> string, minimum: int, c: int) {
    |NonTrivial(NodesOf(tags, c), typeOf)| >= minimum
  }

  /** The clusters in `todo` and the large ones are left as they were, and nothing else. */
  ghost predicate Sifted(tags: map<int, int>, typeOf: int -> string, minimum: int, todo: set<int>,
                         left: map<int, int>)
  {
    && (forall v :: v in left <==> v in tags && (tags[v] in todo || Large(tags, typeOf, minimum, tags[v])))
    && (forall v :: v in left ==> left[v] == tags[v])
  }

  /**
   A node keeps its cluster exactly if that cluster has at least `minimum` nodes of other types than the two named,
   and keeps it under its tag.
   */
  method DeassignClusters(tags: map<int, int>, typeOf: int -> string, minimum: int) returns (left: map<int, int>)
    ensures forall v :: v in left <==>
              v in tags &&
              |set u | u in tags && tags[u] == tags[v] && typeOf(u) != "Const" && typeOf(u) != "Identitiy"| >= minimum
    ensures forall v :: v in left ==> left[v] == tags[v]
  {
    var clusterMap := CollectClusters(tags);
    left := tags;
    var todo := clusterMap.Keys;
    while todo != {}
      invariant todo <= clusterMap.Keys && Sifted(tags, typeOf, minimum, todo, left)
      decreases |todo|
    {
      ghost var some := SomeMember(todo);
      var c :| c in todo;
      var nodes := clusterMap[c];
      CollectedNodes(tags, clusterMap, c);
      var count := CountNonTrivial(nodes, typeOf);
      if count < minimum {
        left := left - nodes;
      }
      todo := todo - {c};
    }
    LargeMeans(tags, typeOf, minimum);
  }

  lemma LargeMeans(tags: map<int, int>, typeOf: int -> string, minimum: int)
    ensures forall v :: v in tags ==>
              (Large(tags, typeOf, minimum, tags[v]) <==>
                |set u | u in tags && tags[u] == tags[v] && typeOf(u) != "Const"
                    && typeOf(u) != "Identitiy"| >= minimum)
  {
    forall v | v in tags
      ensures Large(tags, typeOf, minimum, tags[v]) <==>
                |set u | u in tags && tags[u] == tags[v] && typeOf(u) != "Const" && typeOf(u) != "Identitiy"| >= minimum
    {
      SameMembers(NonTrivial(NodesOf(tags, tags[v]), typeOf),
        set u | u in tags && tags[u] == tags[v] && typeOf(u) != "Const" && typeOf(u) != "Identitiy");
    }
  }
}
