/** JavaScript's `Map`, whose keys are walked in the order they were first set. */
module InsertionMaps {
  import opened Lists

  datatype InsertionMap<K(==), V> = InsertionMap(keys: seq<K>, at: map<K, V>) {
    ghost predicate Valid() {
      NoDuplicates(keys) && (forall k :: k in keys ==> k in at) && (forall k :: k in at ==> k in keys)
    }

    /** Replacing a value keeps its key's place. */
    function Put(k: K, v: V): (r: InsertionMap<K, V>)
      ensures Valid() ==> r.Valid()
      ensures r.at == at[k := v]
    {
      InsertionMap(if k in at then keys else keys + [k], at[k := v])
    }

    function Has(k: K): bool { k in at }
  }

  function EmptyMap<K(==), V>(): (r: InsertionMap<K, V>)
    ensures r.Valid()
  {
    InsertionMap([], map[])
  }
}

/** `groupBy` of back/src/dora/dora-metrics.ts. */
module Grouping {
  import opened InsertionMaps
  import opened Lists

  /** One bucket per key, in order of first appearance, each in input order. */
  ghost predicate Groups<T(!new), K>(m: InsertionMap<K, seq<T>>, items: seq<T>, key: T -> K) {
    && m.Valid()
    && m.keys == FirstSeen(items, key)
    && forall k :: k in m.at ==> m.at[k] == Filter(items, Keyed(key, k))
  }

  /** Every bucket holds something: nothing is grouped under a key nobody has. */
  lemma GroupsAreNotEmpty<T(!new), K>(items: seq<T>, key: T -> K, k: K)
    ensures k in FirstSeen(items, key) <==> Filter(items, Keyed(key, k)) != []
  {
    if k in FirstSeen(items, key) {
      var x :| x in items && key(x) == k;
      assert x in Filter(items, Keyed(key, k));
    }
    if Filter(items, Keyed(key, k)) != [] {
      assert Filter(items, Keyed(key, k))[0] in Filter(items, Keyed(key, k));
    }
  }

  method GroupBy<T(!new), K(==)>(items: seq<T>, key: T -> K) returns (m: InsertionMap<K, seq<T>>)
    ensures Groups(m, items, key)
  {
    m := EmptyMap();
    for i := 0 to |items|
      invariant Groups(m, items[..i], key)
    {
      var k := key(items[i]);
      FirstSeenNext(items, i, key);
      GroupNext(m, items, i, key);
      m := m.Put(k, if m.Has(k) then m.at[k] + [items[i]] else [items[i]]);
    }
    assert items[..|items|] == items;
  }

  /** One more item leaves every bucket but its own as it was. */
  lemma {:induction false} GroupNext<T(!new), K>(m: InsertionMap<K, seq<T>>, items: seq<T>, i: nat, key: T -> K)
    requires i < |items| && Groups(m, items[..i], key)
    ensures var k := key(items[i]);
      var at := m.at[k := if m.Has(k) then m.at[k] + [items[i]] else [items[i]]];
      forall j :: j in at ==> at[j] == Filter(items[..i + 1], Keyed(key, j))
  {
    var k := key(items[i]);
    GroupsAreNotEmpty(items[..i], key, k);
    var at := m.at[k := if m.Has(k) then m.at[k] + [items[i]] else [items[i]]];
    forall j | j in at ensures at[j] == Filter(items[..i + 1], Keyed(key, j)) {
      FilterNext(items, i, Keyed(key, j));
    }
  }
}
