/** Ordered key/value lists, the shape of a Python dictionary literal: keys
    in insertion order, looked up by key. */
module AssocLists {
  import opened Wrappers

  /** No key occurs twice, as in any Python dictionary. */
  ghost predicate UniqueKeys<K, V>(entries: seq<(K, V)>) {
    forall i, j :: 0 <= i < j < |entries| ==> entries[i].0 != entries[j].0
  }

  /** The value of the first entry with key `k`, or `None` when no entry has
      it. On entries with unique keys this is `d[k]`, with the missing-key
      case made explicit. */
  function Find<K(==), V>(entries: seq<(K, V)>, k: K): (r: Option<V>)
    ensures r.None? <==> forall i :: 0 <= i < |entries| ==> entries[i].0 != k
    ensures r.Some? ==> exists i :: 0 <= i < |entries| && entries[i] == (k, r.value)
    decreases |entries|
  {
    if |entries| == 0 then None
    else if entries[0].0 == k then Some(entries[0].1)
    else
      var r := Find(entries[1..], k);
      assert forall i :: 1 <= i < |entries| ==> entries[i] == entries[1..][i - 1];
      r
  }

  /** With unique keys, looking up the key of any entry returns that entry's
      value. */
  lemma FindEntry<K, V>(entries: seq<(K, V)>, i: int)
    requires UniqueKeys(entries)
    requires 0 <= i < |entries|
    ensures Find(entries, entries[i].0) == Some(entries[i].1)
  {
  }
}
