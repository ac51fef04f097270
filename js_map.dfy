/**
 * An ECMAScript `Map` with string keys. Iteration (`values()`) follows the
 * order in which keys were first inserted; `set` on a present key keeps its
 * place, `delete` takes the key out of the order.
 */
module JsMap {
  import opened Wrappers
  import opened JsArray

  datatype OrderedMap<V> = OrderedMap(keys: seq<string>, entries: map<string, V>) {

    /** Each key is listed once, and the listed keys are exactly the keys of `entries`. */
    ghost predicate Valid() {
      NoDuplicates(keys) && forall k :: k in entries <==> k in keys
    }

    /** `Map.prototype.get`. */
    function Get(k: string): Option<V> {
      if k in entries then Some(entries[k]) else None
    }

    /** `Map.prototype.set`. */
    function Set(k: string, v: V): (m: OrderedMap<V>)
      requires Valid()
      ensures m.Valid()
      ensures m.entries == entries[k := v]
      ensures m.keys == if k in entries then keys else keys + [k]
    {
      if k in entries then OrderedMap(keys, entries[k := v])
      else OrderedMap(keys + [k], entries[k := v])
    }

    /** `Map.prototype.delete`. */
    function Delete(k: string): (m: OrderedMap<V>)
      requires Valid()
      ensures m.Valid()
      ensures m.entries == entries - {k}
      ensures m.keys == RemoveFirst(keys, k)
    {
      RemoveFirstFromDistinct(keys, k);
      forall k' | k' != k ensures k' in RemoveFirst(keys, k) <==> k' in keys {
        RemoveFirstKeepsOthers(keys, k, k');
      }
      OrderedMap(RemoveFirst(keys, k), entries - {k})
    }

    /** `Array.from(m.values())`: the values in key order. */
    function Values(): (vs: seq<V>)
      requires Valid()
      ensures |vs| == |keys|
      ensures forall i :: 0 <= i < |keys| ==> vs[i] == entries[keys[i]]
    {
      seq(|keys|, i requires 0 <= i < |keys| => entries[keys[i]])
    }

    /** `Map.prototype.size`. */
    function Size(): (n: nat)
      requires Valid()
      ensures n == |entries|
    {
      EntryCount(keys, entries);
      |keys|
    }
  }

  /** The empty `new Map()`. */
  function Empty<V>(): (m: OrderedMap<V>)
    ensures m.Valid() && m.Size() == 0
    ensures forall k :: m.Get(k) == None
  {
    OrderedMap([], map[])
  }

  /** `m.delete(k)` for each `k` of `ks`, in order. */
  function DeleteEach<V>(m: OrderedMap<V>, ks: seq<string>): (r: OrderedMap<V>)
    requires m.Valid()
    ensures r.Valid()
    ensures forall k :: k in r.entries <==> k in m.entries && k !in ks
    ensures forall k :: k in r.entries ==> r.entries[k] == m.entries[k]
  {
    if ks == [] then m
    else
      var init, last := ks[..|ks| - 1], ks[|ks| - 1];
      assert ks == init + [last];
      DeleteEach(m, init).Delete(last)
  }

  /** Two maps with the same keys in the same order and the same values are the same map. */
  lemma SameKeysSameValues<V>(a: OrderedMap<V>, b: OrderedMap<V>)
    requires a.Valid() && b.Valid() && a.keys == b.keys
    requires forall k :: k in a.entries ==> a.entries[k] == b.entries[k]
    ensures a == b
  {
    assert a.entries == b.entries;
  }

  /** Deleting the keys of `ks` and then `k` is deleting the keys of `ks + [k]`. */
  lemma DeleteEachSnoc<V>(m: OrderedMap<V>, ks: seq<string>, k: string)
    requires m.Valid()
    ensures DeleteEach(m, ks + [k]) == DeleteEach(m, ks).Delete(k)
  {
    assert (ks + [k])[..|ks|] == ks;
  }

  /** A duplicate-free list of keys has as many keys as the set of its keys. */
  lemma EntryCount<V>(keys: seq<string>, entries: map<string, V>)
    requires NoDuplicates(keys)
    requires forall k :: k in entries <==> k in keys
    ensures |entries| == |keys|
  {
    KeyCount(keys, entries.Keys);
  }

  /** A duplicate-free list has as many values as the set of its values. */
  lemma {:induction false} KeyCount(keys: seq<string>, s: set<string>)
    requires NoDuplicates(keys)
    requires forall k :: k in s <==> k in keys
    ensures |s| == |keys|
    decreases |keys|
  {
    if keys != [] {
      var last := keys[|keys| - 1];
      var init := keys[..|keys| - 1];
      assert keys == init + [last];
      assert last !in init;
      KeyCount(init, s - {last});
    } else {
      assert s == {};
    }
  }
}
