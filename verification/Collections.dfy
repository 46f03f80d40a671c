/** What several models need of sets and sequences: that one which is not empty has a member. */
module Collections {

  lemma {:induction false} Inhabited<T(!new)>(s: set<T>)
    ensures s == {} || exists x :: x in s
  {
    if forall x :: x !in s {
      assert s == {};
    }
  }

  lemma {:induction false} First<T>(s: seq<T>) returns (x: T)
    requires s != []
    ensures x in s
  {
    x := s[0];
  }

  /** Some key of a map that has one. */
  ghost function AnyKey<K(!new), V>(m: map<K, V>): (k: K)
    requires m != map[]
    ensures k in m
  {
    Inhabited(m.Keys);
    var k :| k in m;
    k
  }

  /** Some member of a set that has one. */
  method Any<T(==, !new)>(s: set<T>) returns (x: T)
    requires s != {}
    ensures x in s
  {
    Inhabited(s);
    x :| x in s;
  }
}
