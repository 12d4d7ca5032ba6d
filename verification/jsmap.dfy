/** A JavaScript `Map`: a finite association whose iteration order is the
    order in which keys were first inserted. `set` on a present key replaces
    the value and keeps the key's position; `delete` removes the key and keeps
    the relative order of the others. Both registries of the server and the
    handle table of the client are such maps. */
module JsMap {
  import opened Base

  datatype Table<K(==), V> = Table(order: seq<K>, m: map<K, V>) {

    /** The iteration order lists every key of the association exactly once. */
    ghost predicate Valid() {
      && (forall i, j :: 0 <= i < j < |order| ==> order[i] != order[j])
      && (forall k | k in m :: k in order)
      && (forall i | 0 <= i < |order| :: order[i] in m)
    }

    predicate Has(k: K) {
      k in m
    }

    /** `map.get(k)`: the value, or nothing when the key is absent. */
    function Get(k: K): (r: Option<V>)
      ensures r.Some? <==> k in m
      ensures r.Some? ==> r.value == m[k]
    {
      if k in m then Some(m[k]) else None
    }

    /** `map.size` */
    function Size(): nat {
      |order|
    }

    /** `map.set(k, v)` */
    function Set(k: K, v: V): (t: Table<K, V>)
      ensures Valid() ==> t.Valid()
      ensures t.m == m[k := v]
      ensures k in m ==> t.order == order
      ensures k !in m ==> t.order == order + [k]
    {
      if k in m then Table(order, m[k := v]) else Table(order + [k], m[k := v])
    }

    /** `map.delete(k)` */
    function Delete(k: K): (t: Table<K, V>)
      ensures Valid() ==> t.Valid()
      ensures t.m == m - {k}
      ensures t.order == Remove(order, k)
      ensures Valid() && k in m ==> |t.order| == |order| - 1
      ensures Valid() && k !in m ==> t.order == order
    {
      assert Valid() ==> Table(Remove(order, k), m - {k}).Valid() && (k in m ==> |Remove(order, k)| == |order| - 1) && (k !in m ==> Remove(order, k) == order) by {
        if Valid() { DeleteValid(this, k); }
      }
      Table(Remove(order, k), m - {k})
    }

    /** `map.values()`, in iteration order. */
    function Values(): (vs: seq<V>)
      ensures Valid() ==> |vs| == |order|
      ensures Valid() ==> forall i | 0 <= i < |order| :: vs[i] == m[order[i]]
    {
      ValuesAlong(order, m)
    }

    /** In a valid table `size` counts the keys; it is zero exactly when the
        table is empty. */
    lemma SizeMatches()
      requires Valid()
      ensures Size() == |m|
      ensures Size() == 0 <==> m == map[]
    {
      OrderCardinality(order, m.Keys);
    }
  }

  /** The empty map, `new Map()`. */
  function Empty<K(==), V>(): (t: Table<K, V>)
    ensures t.Valid() && t.Size() == 0 && t.m == map[]
  {
    Table([], map[])
  }

  /** The values of `m` under the keys of `order`, in that order. */
  function ValuesAlong<K(==), V>(order: seq<K>, m: map<K, V>): (vs: seq<V>)
    ensures (forall i | 0 <= i < |order| :: order[i] in m) ==>
      && |vs| == |order|
      && forall i | 0 <= i < |order| :: vs[i] == m[order[i]]
  {
    if |order| == 0 then []
    else if order[0] in m then [m[order[0]]] + ValuesAlong(order[1..], m)
    else ValuesAlong(order[1..], m)
  }

  /** Setting a key twice keeps only the second value. */
  lemma SetTwice<K, V>(t: Table<K, V>, k: K, v1: V, v2: V)
    ensures t.Set(k, v1).Set(k, v2) == t.Set(k, v2)
  {
    assert t.m[k := v1][k := v2] == t.m[k := v2];
  }

  /** `order` with every occurrence of `k` dropped, the others kept in order. */
  function Remove<K(==)>(order: seq<K>, k: K): seq<K>
  {
    if |order| == 0 then []
    else if order[0] == k then Remove(order[1..], k)
    else [order[0]] + Remove(order[1..], k)
  }

  lemma {:induction false} RemoveProperties<K>(order: seq<K>, k: K)
    requires forall i, j :: 0 <= i < j < |order| ==> order[i] != order[j]
    ensures forall x | x in Remove(order, k) :: x in order && x != k
    ensures forall x | x in order && x != k :: x in Remove(order, k)
    ensures forall i, j :: 0 <= i < j < |Remove(order, k)| ==> Remove(order, k)[i] != Remove(order, k)[j]
    ensures k in order ==> |Remove(order, k)| == |order| - 1
    ensures k !in order ==> Remove(order, k) == order
  {
    if |order| > 0 {
      RemoveProperties(order[1..], k);
      if order[0] != k {
        var r := Remove(order, k);
        assert r == [order[0]] + Remove(order[1..], k);
        forall i, j | 0 <= i < j < |r| ensures r[i] != r[j] {
          if i == 0 {
            assert r[j] in Remove(order[1..], k);
            assert order[0] !in order[1..];
          }
        }
      } else {
        assert k !in order[1..];
      }
    }
  }

  lemma DeleteValid<K, V>(t: Table<K, V>, k: K)
    requires t.Valid()
    ensures Table(Remove(t.order, k), t.m - {k}).Valid()
    ensures k in t.m ==> |Remove(t.order, k)| == |t.order| - 1
    ensures k !in t.m ==> Remove(t.order, k) == t.order
  {
    RemoveProperties(t.order, k);
    var r := Remove(t.order, k);
    forall i | 0 <= i < |r| ensures r[i] in t.m - {k} {
      assert r[i] in r;
      assert r[i] in t.order;
      var j :| 0 <= j < |t.order| && t.order[j] == r[i];
    }
  }

  lemma {:induction false} OrderCardinality<K>(order: seq<K>, keys: set<K>)
    requires forall i, j :: 0 <= i < j < |order| ==> order[i] != order[j]
    requires forall k | k in keys :: k in order
    requires forall i | 0 <= i < |order| :: order[i] in keys
    ensures |order| == |keys|
  {
    if |order| > 0 {
      var rest := order[1..];
      forall k | k in keys - {order[0]} ensures k in rest {
        var j :| 0 <= j < |order| && order[j] == k;
        assert j != 0;
        assert rest[j - 1] == k;
      }
      forall i | 0 <= i < |rest| ensures rest[i] in keys - {order[0]} {
        assert rest[i] == order[i + 1];
      }
      OrderCardinality(rest, keys - {order[0]});
    } else {
      assert keys == {};
    }
  }

  /** Every position of `Remove(order, k)` comes from a position of
      `order`. */
  lemma {:induction false} RemoveIndex<K>(order: seq<K>, k: K, q: int) returns (p: int)
    requires 0 <= q < |Remove(order, k)|
    ensures 0 <= p < |order| && order[p] == Remove(order, k)[q]
  {
    var rest := order[1..];
    if order[0] == k {
      p := RemoveIndex(rest, k, q);
      p := p + 1;
    } else {
      assert Remove(order, k) == [order[0]] + Remove(rest, k);
      if q == 0 {
        p := 0;
      } else {
        p := RemoveIndex(rest, k, q - 1);
        p := p + 1;
      }
    }
  }

  /** Removing a key keeps the relative order of the others: two positions
      of the result come from two positions of `order` in the same order. */
  lemma {:induction false} RemoveKeepsOrder<K>(order: seq<K>, k: K, i: int, j: int) returns (i': int, j': int)
    requires 0 <= i < j < |Remove(order, k)|
    ensures 0 <= i' < j' < |order|
    ensures order[i'] == Remove(order, k)[i] && order[j'] == Remove(order, k)[j]
  {
    var rest := order[1..];
    if order[0] == k {
      i', j' := RemoveKeepsOrder(rest, k, i, j);
      i', j' := i' + 1, j' + 1;
    } else {
      assert Remove(order, k) == [order[0]] + Remove(rest, k);
      if i == 0 {
        var b := RemoveIndex(rest, k, j - 1);
        i', j' := 0, b + 1;
      } else {
        i', j' := RemoveKeepsOrder(rest, k, i - 1, j - 1);
        i', j' := i' + 1, j' + 1;
      }
    }
  }

  /** Deleting a key that was just appended restores the order. */
  lemma {:induction false} RemoveAppended<K>(order: seq<K>, k: K)
    requires k !in order
    ensures Remove(order + [k], k) == order
  {
    if |order| == 0 {
      assert Remove([k], k) == Remove([k][1..], k);
    } else {
      assert (order + [k])[1..] == order[1..] + [k];
      RemoveAppended(order[1..], k);
    }
  }
}
