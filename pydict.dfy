/**
 * A Python `dict` as the list of its entries in insertion order, with the
 * `d[k] = v` update that a dict comprehension performs once per element.
 */
module PyDict {

  type Dict<K, V> = seq<(K, V)>

  /** The keys in iteration order. */
  function Keys<K, V>(d: Dict<K, V>): (ks: seq<K>)
    ensures |ks| == |d|
    ensures forall a :: 0 <= a < |d| ==> ks[a] == d[a].0
  {
    if d == [] then [] else [d[0].0] + Keys(d[1..])
  }

  /** No key occurs twice, as in every dict. */
  ghost predicate DistinctKeys<K, V>(d: Dict<K, V>) {
    forall a, b :: 0 <= a < b < |d| ==> d[a].0 != d[b].0
  }

  /** The dict as a mathematical map; an earlier entry wins over a later one with the same key. */
  ghost function View<K, V>(d: Dict<K, V>): map<K, V> {
    if d == [] then map[] else View(d[1..])[d[0].0 := d[0].1]
  }

  /** `d[k] = v`: an existing key keeps its place and takes the new value; a new key is appended. */
  function SetItem<K(==), V>(d: Dict<K, V>, k: K, v: V): (r: Dict<K, V>)
    ensures |r| == |d| || |r| == |d| + 1
  {
    if d == [] then [(k, v)]
    else if d[0].0 == k then [(k, v)] + d[1..]
    else [d[0]] + SetItem(d[1..], k, v)
  }

  /** The keys of the view are the keys of the entries. */
  lemma {:induction false} ViewKeys<K, V>(d: Dict<K, V>)
    ensures forall x :: x in View(d) <==> x in Keys(d)
  {
    if d != [] {
      ViewKeys(d[1..]);
    }
  }

  /** As a map, `d[k] = v` is the map update. */
  lemma {:induction false} SetItemView<K, V>(d: Dict<K, V>, k: K, v: V)
    ensures View(SetItem(d, k, v)) == View(d)[k := v]
  {
    if d != [] {
      var r := SetItem(d, k, v);
      if d[0].0 == k {
        assert r[1..] == d[1..];
      } else {
        SetItemView(d[1..], k, v);
        assert r[1..] == SetItem(d[1..], k, v);
      }
    }
  }

  /** `d[k] = v` keeps the order of the keys and puts a new key last. */
  lemma {:induction false} SetItemKeys<K, V>(d: Dict<K, V>, k: K, v: V)
    ensures Keys(SetItem(d, k, v)) == if k in Keys(d) then Keys(d) else Keys(d) + [k]
  {
    if d != [] {
      var r := SetItem(d, k, v);
      if d[0].0 == k {
        assert r[1..] == d[1..];
      } else {
        SetItemKeys(d[1..], k, v);
        assert r[1..] == SetItem(d[1..], k, v);
      }
    }
  }

  /** Keys that are distinct before `d[k] = v` are distinct after it. */
  lemma SetItemDistinct<K, V>(d: Dict<K, V>, k: K, v: V)
    requires DistinctKeys(d)
    ensures DistinctKeys(SetItem(d, k, v))
  {
    SetItemKeys(d, k, v);
    var r := SetItem(d, k, v);
    assert forall a :: 0 <= a < |r| ==> r[a].0 == Keys(r)[a];
    assert forall a :: 0 <= a < |d| ==> d[a].0 == Keys(d)[a];
  }
}
