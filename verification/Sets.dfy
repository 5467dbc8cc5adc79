/** Small facts about sets and sequences that the solver does not find at every element type. */
module Sets {

  lemma SomeMember<T>(s: set<T>) returns (x: T)
    requires s != {}
    ensures x in s
  {
    x :| x in s;
  }

  lemma SameMembers<T>(s: set<T>, t: set<T>)
    requires forall x :: x in s <==> x in t
    ensures s == t
  {
  }

  function Elems<T(!new)>(s: seq<T>): (r: set<T>)
    ensures forall v :: v in r <==> v in s
  {
    set v | v in s
  }

  lemma PopLast<T(!new)>(s: seq<T>)
    requires s != []
    ensures s[|s| - 1] in Elems(s) && Elems(s) == Elems(s[..|s| - 1]) + {s[|s| - 1]}
  {
    assert s == s[..|s| - 1] + [s[|s| - 1]];
  }

  lemma ElemsAppend<T(!new)>(s: seq<T>, x: T)
    ensures Elems(s + [x]) == Elems(s) + {x}
  {
  }

  lemma EmptyPrefix<T>(s: seq<T>)
    ensures [] + s == s
  {
  }

  lemma KeyOf<K, V>(m: map<K, V>, y: V) returns (x: K)
    requires y in m.Values
    ensures x in m && m[x] == y
  {
    x :| x in m && m[x] == y;
  }
}
