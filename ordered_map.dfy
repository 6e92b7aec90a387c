/**
 * A JavaScript `Map` as the view provider uses it: a finite map that remembers
 * the order in which its keys were first inserted. `keys` is that order,
 * `values` the contents.
 */
module OrderedMaps {

  datatype OrderedMap<K(!new), V> = OrderedMap(keys: seq<K>, values: map<K, V>) {

    /** Every key is listed exactly once, and exactly the keys of `values` are listed. */
    ghost predicate Valid() {
      && (forall i, j | 0 <= i < j < |keys| :: keys[i] != keys[j])
      && (forall k :: k in values <==> k in keys)
    }

    /** `Map.prototype.set`: an existing key keeps its position, a new key goes last. */
    function Put(k: K, v: V): (m: OrderedMap<K, V>)
      ensures Valid() ==> m.Valid()
      ensures m.values == values[k := v]
      ensures keys <= m.keys
    {
      OrderedMap(if k in values then keys else keys + [k], values[k := v])
    }

    /** `[...map.values()]`: the values in key-insertion order. */
    function Values(): (vs: seq<V>)
      requires Valid()
      ensures |vs| == |keys|
    {
      seq(|keys|, i requires 0 <= i < |keys| && Valid() => values[keys[i]])
    }
  }

  /** Setting a key twice is setting it once to the second value, in the position the first set gave it. */
  lemma PutTwice<K(!new), V>(m: OrderedMap<K, V>, k: K, v1: V, v2: V)
    ensures m.Put(k, v1).Put(k, v2) == m.Put(k, v2)
  {
    assert m.values[k := v1][k := v2] == m.values[k := v2];
  }

  function Empty<K(!new), V>(): (m: OrderedMap<K, V>)
    ensures m.Valid()
  {
    OrderedMap([], map[])
  }

  /** One `set` per pair, in order: every key written is present afterwards. */
  function PutAll<K(!new), V>(m: OrderedMap<K, V>, kvs: seq<(K, V)>): (r: OrderedMap<K, V>)
    ensures forall i | 0 <= i < |kvs| :: kvs[i].0 in r.values
    decreases |kvs|
  {
    if kvs == [] then m
    else
      var n := |kvs| - 1;
      assert forall i | 0 <= i < n :: kvs[..n][i] == kvs[i];
      PutAll(m, kvs[..n]).Put(kvs[n].0, kvs[n].1)
  }

  /** The value the last pair with each key carries: an independent reading of a run of writes. */
  function LastWrites<K(!new), V>(kvs: seq<(K, V)>): (w: map<K, V>)
    ensures forall k :: k in w <==> exists i | 0 <= i < |kvs| :: kvs[i].0 == k
    decreases |kvs|
  {
    if kvs == [] then map[]
    else
      var w := LastWrites(kvs[..|kvs| - 1]);
      assert forall i | 0 <= i < |kvs| - 1 :: kvs[..|kvs| - 1][i] == kvs[i];
      w[kvs[|kvs| - 1].0 := kvs[|kvs| - 1].1]
  }

  /** The pair that writes a key last decides its value. */
  lemma {:induction false} LastWritesLast<K(!new), V>(kvs: seq<(K, V)>, i: nat)
    requires i < |kvs|
    requires forall j | i < j < |kvs| :: kvs[j].0 != kvs[i].0
    ensures kvs[i].0 in LastWrites(kvs) && LastWrites(kvs)[kvs[i].0] == kvs[i].1
    decreases |kvs|
  {
    var n := |kvs| - 1;
    if i < n {
      assert forall j | i < j < n :: kvs[..n][j] == kvs[j];
      LastWritesLast(kvs[..n], i);
    }
  }

  /** A run of writes leaves the old values and then the last write per key. */
  lemma {:induction false} PutAllValues<K(!new), V>(m: OrderedMap<K, V>, kvs: seq<(K, V)>)
    ensures PutAll(m, kvs).values == m.values + LastWrites(kvs)
    decreases |kvs|
  {
    if kvs != [] {
      var n := |kvs| - 1;
      PutAllValues(m, kvs[..n]);
      var a, w := m.values, LastWrites(kvs[..n]);
      assert (a + w)[kvs[n].0 := kvs[n].1] == a + w[kvs[n].0 := kvs[n].1];
    }
  }

  /** Writes never remove a key or move one: the old key order is a prefix of the new. */
  lemma {:induction false} PutAllKeepsOrder<K(!new), V>(m: OrderedMap<K, V>, kvs: seq<(K, V)>)
    ensures m.keys <= PutAll(m, kvs).keys
    ensures m.values.Keys <= PutAll(m, kvs).values.Keys
    ensures m.Valid() ==> PutAll(m, kvs).Valid()
    decreases |kvs|
  {
    if kvs != [] {
      PutAllKeepsOrder(m, kvs[..|kvs| - 1]);
    }
  }

  /** Writes to keys already present leave the key order exactly as it was. */
  lemma {:induction false} PutAllPresentKeys<K(!new), V>(m: OrderedMap<K, V>, kvs: seq<(K, V)>)
    requires forall i | 0 <= i < |kvs| :: kvs[i].0 in m.values
    ensures PutAll(m, kvs).keys == m.keys
    ensures PutAll(m, kvs).values.Keys == m.values.Keys
    decreases |kvs|
  {
    if kvs != [] {
      var n := |kvs| - 1;
      assert forall i | 0 <= i < n :: kvs[..n][i] == kvs[i];
      PutAllPresentKeys(m, kvs[..n]);
    }
  }

  /** Replaying the same writes a second time changes nothing. */
  lemma PutAllIdempotent<K(!new), V>(m: OrderedMap<K, V>, kvs: seq<(K, V)>)
    ensures PutAll(PutAll(m, kvs), kvs) == PutAll(m, kvs)
  {
    var once := PutAll(m, kvs);
    PutAllValues(m, kvs);
    PutAllValues(once, kvs);
    PutAllPresentKeys(once, kvs);
    var w := LastWrites(kvs);
    assert (m.values + w) + w == m.values + w;
  }

  // ---------------------------------------------------------------- maps of maps

  /** A map whose values are maps, as the label index is: outer key, then inner key. */
  type Nested<K1(!new), K2(!new), V> = OrderedMap<K1, OrderedMap<K2, V>>

  /** Both levels are ordered maps with their keys listed once. */
  ghost predicate NestedValid<K1(!new), K2(!new), V>(n: Nested<K1, K2, V>) {
    n.Valid() && forall k | k in n.values :: n.values[k].Valid()
  }

  /** The inner map under `k`, or a fresh empty one. */
  function Inner<K1(!new), K2(!new), V>(n: Nested<K1, K2, V>, k: K1): OrderedMap<K2, V> {
    if k in n.values then n.values[k] else Empty()
  }

  /** `outer.get(k1)`, creating and adding an empty inner map when missing, then `.set(k2, v)` on it. */
  function NestedPut<K1(!new), K2(!new), V>(n: Nested<K1, K2, V>, k1: K1, k2: K2, v: V): Nested<K1, K2, V> {
    n.Put(k1, Inner(n, k1).Put(k2, v))
  }

  /** One `NestedPut` per triple, in order. Outer keys are only ever added, never moved or removed. */
  function NestedPutAll<K1(!new), K2(!new), V>(n: Nested<K1, K2, V>, ws: seq<(K1, K2, V)>): (out: Nested<K1, K2, V>)
    ensures n.keys <= out.keys
    ensures n.values.Keys <= out.values.Keys
    decreases |ws|
  {
    if ws == [] then n
    else
      var w := ws[|ws| - 1];
      NestedPut(NestedPutAll(n, ws[..|ws| - 1]), w.0, w.1, w.2)
  }

  /** The inner writes of `ws` that go to outer key `k`, in order. */
  function Select<K1(==, !new), K2(!new), V>(ws: seq<(K1, K2, V)>, k: K1): (kvs: seq<(K2, V)>)
    ensures |kvs| <= |ws|
    decreases |ws|
  {
    if ws == [] then []
    else
      var w := ws[|ws| - 1];
      Select(ws[..|ws| - 1], k) + (if w.0 == k then [(w.1, w.2)] else [])
  }

  lemma NestedPutAllSnoc<K1(!new), K2(!new), V>(n: Nested<K1, K2, V>, ws: seq<(K1, K2, V)>, w: (K1, K2, V))
    ensures NestedPutAll(n, ws + [w]) == NestedPut(NestedPutAll(n, ws), w.0, w.1, w.2)
  {
    assert (ws + [w])[..|ws|] == ws;
  }

  /** Writing `ws1` and then `ws2` is writing `ws1 + ws2`. */
  lemma {:induction false} NestedPutAllAppend<K1(!new), K2(!new), V>(n: Nested<K1, K2, V>, ws1: seq<(K1, K2, V)>, ws2: seq<(K1, K2, V)>)
    ensures NestedPutAll(n, ws1 + ws2) == NestedPutAll(NestedPutAll(n, ws1), ws2)
    decreases |ws2|
  {
    if ws2 == [] {
      assert ws1 + ws2 == ws1;
    } else {
      var k := |ws2| - 1;
      var w := ws2[k];
      assert ws1 + ws2 == (ws1 + ws2[..k]) + [w];
      assert ws2 == ws2[..k] + [w];
      NestedPutAllSnoc(n, ws1 + ws2[..k], w);
      NestedPutAllAppend(n, ws1, ws2[..k]);
      NestedPutAllSnoc(NestedPutAll(n, ws1), ws2[..k], w);
    }
  }

  /** One nested write changes only the inner map it addresses, and adds at most that outer key. */
  lemma NestedPutStep<K1(!new), K2(!new), V>(n: Nested<K1, K2, V>, k1: K1, k2: K2, v: V, k: K1)
    ensures Inner(NestedPut(n, k1, k2, v), k) == if k1 == k then Inner(n, k).Put(k2, v) else Inner(n, k)
    ensures k in NestedPut(n, k1, k2, v).values <==> k in n.values || k == k1
  {
  }

  /** A write to a missing outer key adds it last, holding just the one entry. */
  lemma NestedPutNew<K1(!new), K2(!new), V>(n: Nested<K1, K2, V>, k1: K1, k2: K2, v: V)
    requires k1 !in n.values
    ensures NestedPut(n, k1, k2, v) == OrderedMap(n.keys + [k1], n.values[k1 := OrderedMap([k2], map[k2 := v])])
  {
    assert Inner(n, k1) == Empty();
    PutIntoEmpty(k2, v);
  }

  /** Setting a key in an empty map gives the map holding just that entry. */
  lemma PutIntoEmpty<K(!new), V>(k: K, v: V)
    ensures Empty<K, V>().Put(k, v) == OrderedMap([k], map[k := v])
  {
    assert map[][k := v] == map[k := v];
  }

  /** A write to a present outer key keeps the outer order and updates that inner map. */
  lemma NestedPutExisting<K1(!new), K2(!new), V>(n: Nested<K1, K2, V>, k1: K1, k2: K2, v: V)
    requires k1 in n.values
    ensures NestedPut(n, k1, k2, v) == OrderedMap(n.keys, n.values[k1 := n.values[k1].Put(k2, v)])
  {
  }

  /** Each inner map ends up as the old one with exactly the writes addressed to it replayed. */
  lemma {:induction false} NestedPutAllInner<K1(!new), K2(!new), V>(n: Nested<K1, K2, V>, ws: seq<(K1, K2, V)>, k: K1)
    ensures Inner(NestedPutAll(n, ws), k) == PutAll(Inner(n, k), Select(ws, k))
    decreases |ws|
  {
    if ws != [] {
      var w := ws[|ws| - 1];
      var prev := NestedPutAll(n, ws[..|ws| - 1]);
      var sel := Select(ws[..|ws| - 1], k);
      NestedPutAllInner(n, ws[..|ws| - 1], k);
      NestedPutStep(prev, w.0, w.1, w.2, k);
      if w.0 == k {
        assert Select(ws, k) == sel + [(w.1, w.2)];
        assert (sel + [(w.1, w.2)])[..|sel|] == sel;
      } else {
        assert Select(ws, k) == sel;
      }
    }
  }

  /** The outer keys a run of writes addresses. */
  ghost function OuterKeys<K1(!new), K2(!new), V>(ws: seq<(K1, K2, V)>): (ks: set<K1>)
    ensures forall k :: k in ks <==> exists i | 0 <= i < |ws| :: ws[i].0 == k
    decreases |ws|
  {
    if ws == [] then {}
    else
      var m := |ws| - 1;
      assert forall i | 0 <= i < m :: ws[..m][i] == ws[i];
      OuterKeys(ws[..m]) + {ws[m].0}
  }

  /** The outer keys afterwards are those before and those the writes address. */
  lemma {:induction false} NestedPutAllOuter<K1(!new), K2(!new), V>(n: Nested<K1, K2, V>, ws: seq<(K1, K2, V)>)
    ensures NestedPutAll(n, ws).values.Keys == n.values.Keys + OuterKeys(ws)
    decreases |ws|
  {
    if ws != [] {
      var m := |ws| - 1;
      var w := ws[m];
      NestedPutAllOuter(n, ws[..m]);
      var prev := NestedPutAll(n, ws[..m]);
      assert NestedPutAll(n, ws).values == prev.values[w.0 := Inner(prev, w.0).Put(w.1, w.2)];
    }
  }

  /** Writes keep both levels well formed. */
  lemma {:induction false} NestedPutAllValid<K1(!new), K2(!new), V>(n: Nested<K1, K2, V>, ws: seq<(K1, K2, V)>)
    requires NestedValid(n)
    ensures NestedValid(NestedPutAll(n, ws))
    decreases |ws|
  {
    if ws != [] {
      var w := ws[|ws| - 1];
      var prev := NestedPutAll(n, ws[..|ws| - 1]);
      NestedPutAllValid(n, ws[..|ws| - 1]);
      assert Inner(prev, w.0).Valid();
    }
  }

  /** Writes whose outer keys are all present leave the outer key order as it was. */
  lemma {:induction false} NestedPutAllPresentKeys<K1(!new), K2(!new), V>(n: Nested<K1, K2, V>, ws: seq<(K1, K2, V)>)
    requires forall i | 0 <= i < |ws| :: ws[i].0 in n.values
    ensures NestedPutAll(n, ws).keys == n.keys
    ensures NestedPutAll(n, ws).values.Keys == n.values.Keys
    decreases |ws|
  {
    if ws != [] {
      var m := |ws| - 1;
      assert forall i | 0 <= i < m :: ws[..m][i] == ws[i];
      NestedPutAllPresentKeys(n, ws[..m]);
    }
  }

  /** Replaying the same run of writes a second time changes nothing. */
  lemma NestedPutAllIdempotent<K1(!new), K2(!new), V>(n: Nested<K1, K2, V>, ws: seq<(K1, K2, V)>)
    ensures NestedPutAll(NestedPutAll(n, ws), ws) == NestedPutAll(n, ws)
  {
    var once := NestedPutAll(n, ws);
    var twice := NestedPutAll(once, ws);
    NestedPutAllOuter(n, ws);
    assert forall i | 0 <= i < |ws| :: ws[i].0 in OuterKeys(ws);
    NestedPutAllPresentKeys(once, ws);
    forall k | k in twice.values ensures twice.values[k] == once.values[k] {
      NestedPutAllInner(once, ws, k);
      NestedPutAllInner(n, ws, k);
      PutAllIdempotent(Inner(n, k), Select(ws, k));
      assert Inner(twice, k) == twice.values[k];
      assert Inner(once, k) == once.values[k];
    }
    assert twice.values == once.values;
  }

  /** `keys` followed by each of `ks` not yet listed, in first-seen order. */
  function AppendNew<K(==)>(keys: seq<K>, ks: seq<K>): seq<K>
    decreases |ks|
  {
    if ks == [] then keys
    else
      var a := AppendNew(keys, ks[..|ks| - 1]);
      if ks[|ks| - 1] in a then a else a + [ks[|ks| - 1]]
  }

  /** The outer key of each write, in order. */
  function OuterSeq<K1(!new), K2(!new), V>(ws: seq<(K1, K2, V)>): seq<K1> {
    seq(|ws|, i requires 0 <= i < |ws| => ws[i].0)
  }

  /** The outer key order after a run of writes: the old order, then each new outer key where it first appears. */
  lemma {:induction false} NestedPutAllKeyOrder<K1(!new), K2(!new), V>(n: Nested<K1, K2, V>, ws: seq<(K1, K2, V)>)
    requires n.Valid()
    ensures NestedPutAll(n, ws).Valid()
    ensures NestedPutAll(n, ws).keys == AppendNew(n.keys, OuterSeq(ws))
    decreases |ws|
  {
    if ws != [] {
      var m := |ws| - 1;
      NestedPutAllKeyOrder(n, ws[..m]);
      assert OuterSeq(ws)[..m] == OuterSeq(ws[..m]);
    }
  }
}
