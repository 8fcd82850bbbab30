/** Facts about Dafny's collections that several parts of the model share. */
module Collections {
  lemma Member<T>(s: set<T>) returns (x: T)
    requires s != {}
    ensures x in s
  {
    x :| x in s;
  }

  lemma EmptyMap<K, V>(m: map<K, V>)
    requires forall k :: k !in m
    ensures m == map[]
  {
    if m.Keys != {} {
      var k := Member(m.Keys);
    }
  }

  method SomeNat(s: set<nat>) returns (x: nat)
    requires s != {}
    ensures x in s
  {
    x :| x in s;
  }

  /** The members of a set, once each, in some order. */
  method Listing(s: set<nat>) returns (l: seq<int>)
    ensures |l| == |s| && forall x :: x in l <==> x in s
  {
    l := [];
    var left := s;
    while left != {}
      invariant left <= s && |l| + |left| == |s|
      invariant forall x :: x in l <==> x in s && x !in left
    {
      var x := SomeNat(left);
      l := l + [x];
      left := left - {x};
    }
  }
}
