/** Visiting a map by its keys in ascending order, as sort.Strings over the collected keys does. */
module SortedKeys {
  import opened Text
  import opened Sorting

  ghost predicate AreSortedKeys<V>(keys: seq<string>, m: map<string, V>) {
    SortedBy(Less, keys) && forall k :: k in keys <==> k in m
  }

  lemma LessOrders(keys: seq<string>)
    requires forall i, j :: 0 <= i < j < |keys| ==> keys[i] != keys[j]
    ensures Ordering(Less) && DecidesOn(Less, keys)
  {
    forall a ensures !Less(a, a) { LessIrreflexive(a); }
    forall a, b, c | Less(a, b) && Less(b, c) ensures Less(a, c) { LessTransitive(a, b, c); }
    forall i, j | 0 <= i < j < |keys| ensures Less(keys[i], keys[j]) || Less(keys[j], keys[i]) {
      LessTotal(keys[i], keys[j]);
    }
  }

  /** The collected keys, whatever order the map is iterated in, sorted. */
  method Collect<V>(m: map<string, V>) returns (keys: seq<string>)
    ensures AreSortedKeys(keys, m)
  {
    keys := [];
    var rest := m.Keys;
    while rest != {}
      invariant rest <= m.Keys
      invariant forall k :: k in keys <==> k in m && k !in rest
      invariant forall i, j :: 0 <= i < j < |keys| ==> keys[i] != keys[j]
      decreases rest
    {
      var k :| k in rest;
      assert forall i :: 0 <= i < |keys| ==> keys[i] in keys;
      keys := keys + [k];
      rest := rest - {k};
    }
    LessOrders(keys);
    SortSorts(Less, keys);
    SortKeeps(Less, keys);
    keys := Sort(Less, keys);
  }
}
