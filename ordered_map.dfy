/**
 * A JavaScript `Map`: its entries together with the order in which their keys
 * were first inserted, which is the order `for ... of`, `entries()`,
 * `values()` and `Array.from` visit them. Setting an existing key keeps its
 * place; deleting a key removes it from the order.
 */
module OrderedMaps {

  datatype OrderedMap<K, V> = OrderedMap(keys: seq<K>, entries: map<K, V>)

  /** No element is listed twice. */
  ghost predicate Distinct<T>(s: seq<T>)
  {
    forall i, j :: 0 <= i < j < |s| ==> s[i] != s[j]
  }

  /** Keys are listed once each, and exactly the keys of the entries are listed. */
  ghost predicate Valid<K(!new), V>(m: OrderedMap<K, V>)
  {
    && Distinct(m.keys)
    && (forall k :: k in m.entries <==> k in m.keys)
  }

  /** `new Map()` and `map.clear()`. */
  function Empty<K(==, !new), V>(): (m: OrderedMap<K, V>)
    ensures Valid(m) && m.entries == map[] && m.keys == []
  {
    OrderedMap([], map[])
  }

  /** `map.set(k, v)`: a new key goes last, an existing key keeps its place; no other entry changes. */
  function Set<K(==, !new), V>(m: OrderedMap<K, V>, k: K, v: V): (r: OrderedMap<K, V>)
    requires Valid(m)
    ensures Valid(r)
    ensures k in r.entries && r.entries[k] == v
    ensures forall x :: x != k ==> (x in r.entries <==> x in m.entries)
    ensures forall x :: x != k && x in m.entries ==> r.entries[x] == m.entries[x]
    ensures k in m.entries ==> r.keys == m.keys
    ensures k !in m.entries ==> r.keys == m.keys + [k]
  {
    if k in m.entries then OrderedMap(m.keys, m.entries[k := v])
    else OrderedMap(m.keys + [k], m.entries[k := v])
  }

  /** `ks.forEach((k, i) => map.set(k, vs[i]))`, one `set` after another. */
  function SetAll<K(==, !new), V>(m: OrderedMap<K, V>, ks: seq<K>, vs: seq<V>): (r: OrderedMap<K, V>)
    requires Valid(m) && |ks| == |vs|
    ensures Valid(r)
    ensures forall k :: k in r.entries <==> k in m.entries || k in ks
    decreases |ks|
  {
    if ks == [] then m
    else
      var n := |ks| - 1;
      assert forall k :: k in ks <==> k in ks[..n] || k == ks[n];
      Set(SetAll(m, ks[..n], vs[..n]), ks[n], vs[n])
  }

  /** One more step of the loop SetAll describes. */
  lemma SetAllStep<K(!new), V>(m: OrderedMap<K, V>, ks: seq<K>, vs: seq<V>, i: nat)
    requires Valid(m) && |ks| == |vs| && i < |ks|
    ensures SetAll(m, ks[..i + 1], vs[..i + 1]) == Set(SetAll(m, ks[..i], vs[..i]), ks[i], vs[i])
  {
    assert ks[..i + 1][..i] == ks[..i];
    assert vs[..i + 1][..i] == vs[..i];
  }

  /** Entries whose key is not set keep their value. */
  lemma {:induction false} SetAllUntouched<K(!new), V>(m: OrderedMap<K, V>, ks: seq<K>, vs: seq<V>, k: K)
    requires Valid(m) && |ks| == |vs| && k in m.entries && k !in ks
    ensures SetAll(m, ks, vs).entries[k] == m.entries[k]
    decreases |ks|
  {
    if ks != [] {
      var n := |ks| - 1;
      assert ks[n] != k;
      assert k !in ks[..n] by { assert forall j :: 0 <= j < n ==> ks[..n][j] == ks[j]; }
      SetAllUntouched(m, ks[..n], vs[..n], k);
    }
  }

  /** A key set more than once keeps the value of its last occurrence. */
  lemma {:induction false} SetAllLastWins<K(!new), V>(m: OrderedMap<K, V>, ks: seq<K>, vs: seq<V>, i: nat)
    requires Valid(m) && |ks| == |vs| && i < |ks|
    requires forall j :: i < j < |ks| ==> ks[j] != ks[i]
    ensures SetAll(m, ks, vs).entries[ks[i]] == vs[i]
    decreases |ks|
  {
    var n := |ks| - 1;
    var prev := SetAll(m, ks[..n], vs[..n]);
    assert SetAll(m, ks, vs) == Set(prev, ks[n], vs[n]);
    if i < n {
      assert forall j :: i < j < n ==> ks[..n][j] == ks[j];
      assert ks[..n][i] == ks[i] && vs[..n][i] == vs[i];
      SetAllLastWins(m, ks[..n], vs[..n], i);
      assert ks[i] != ks[n];
    }
  }

  /** The keys other than k, in their order. */
  function Without<K(==, !new)>(keys: seq<K>, k: K): (r: seq<K>)
    ensures forall x :: x in r <==> x in keys && x != k
    ensures |r| <= |keys|
  {
    if keys == [] then []
    else if keys[0] == k then Without(keys[1..], k)
    else [keys[0]] + Without(keys[1..], k)
  }

  lemma {:induction false} WithoutDistinct<K(!new)>(keys: seq<K>, k: K)
    requires Distinct(keys)
    ensures Distinct(Without(keys, k))
  {
    if keys != [] {
      var tail := keys[1..];
      assert Distinct(tail) by {
        forall i, j | 0 <= i < j < |tail| ensures tail[i] != tail[j] {
          assert tail[i] == keys[i + 1] && tail[j] == keys[j + 1];
        }
      }
      WithoutDistinct(tail, k);
      if keys[0] != k {
        var w := Without(tail, k);
        assert keys[0] !in tail by {
          forall j | 0 <= j < |tail| ensures tail[j] != keys[0] {
            assert tail[j] == keys[j + 1];
          }
        }
        assert keys[0] !in w;
        var r := [keys[0]] + w;
        assert r == Without(keys, k);
        forall i, j | 0 <= i < j < |r| ensures r[i] != r[j] {
          if i == 0 {
            assert r[j] == w[j - 1] && w[j - 1] in w;
          } else {
            assert r[i] == w[i - 1] && r[j] == w[j - 1];
          }
        }
      }
    }
  }

  /** `map.delete(k)`: k is gone, every other entry stays, and the rest keep their order. */
  function Delete<K(==, !new), V>(m: OrderedMap<K, V>, k: K): (r: OrderedMap<K, V>)
    requires Valid(m)
    ensures Valid(r)
    ensures k !in r.entries
    ensures forall x :: x != k ==> (x in r.entries <==> x in m.entries)
    ensures forall x :: x != k && x in m.entries ==> r.entries[x] == m.entries[x]
    ensures r.keys == Without(m.keys, k)
  {
    WithoutDistinct(m.keys, k);
    OrderedMap(Without(m.keys, k), m.entries - {k})
  }

  /** `Array.from(map.values())`: one value per key, in key order. */
  function Values<K(==, !new), V>(m: OrderedMap<K, V>): (r: seq<V>)
    requires Valid(m)
    ensures |r| == |m.keys|
    ensures forall i :: 0 <= i < |r| ==> r[i] == m.entries[m.keys[i]]
  {
    seq(|m.keys|, i requires 0 <= i < |m.keys| && m.keys[i] in m.entries => m.entries[m.keys[i]])
  }
}
