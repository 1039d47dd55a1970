/** `HashMap::get` on maps, equality of maps by it, and the walk over the keys. */
module Maps {
  import opened Text

  function Lookup<V>(m: map<string, V>, key: string): Option<V> {
    if key in m then Some(m[key]) else None
  }

  lemma SameMap<V>(a: map<string, V>, b: map<string, V>)
    requires forall key :: Lookup(a, key) == Lookup(b, key)
    ensures a == b
  {
    forall key ensures key in a <==> key in b {
      assert Lookup(a, key) == Lookup(b, key);
    }
    forall key | key in a ensures a[key] == b[key] {
      assert Lookup(a, key) == Lookup(b, key);
    }
  }

  /** The elements of a set, in some order: nothing is known of the order of a hash map. */
  method Walk(s: set<string>) returns (order: seq<string>)
    ensures Elements(order) == s && Distinct(order)
  {
    order := [];
    var todo := s;
    while todo != {}
      invariant todo <= s && Elements(order) == s - todo && Distinct(order)
      decreases todo
    {
      var x :| x in todo;
      ElementsAppend(order, x);
      assert forall y :: y in order ==> y in Elements(order);
      order := order + [x];
      todo := todo - {x};
    }
  }

  lemma SmallerSet(a: set<string>, b: set<string>)
    requires a <= b
    ensures |a| <= |b|
  {
    assert b == a + (b - a);
  }
}
