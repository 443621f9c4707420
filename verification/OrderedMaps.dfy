/** An ECMAScript `Map`: entries in the order in which their keys were first set.
    Setting a present key keeps its place; deleting and setting again moves it last. */
module OrderedMaps {
  import opened Sequences

  datatype Entry<+K, +V> = Entry(key: K, value: V)

  type OrderedMap<+K, +V> = seq<Entry<K, V>>

  ghost predicate DistinctKeys<K, V>(m: OrderedMap<K, V>) {
    forall i, j :: 0 <= i < j < |m| ==> m[i].key != m[j].key
  }

  function Find<K(==), V>(m: OrderedMap<K, V>, k: K): Option<V> {
    if m == [] then None
    else if m[0].key == k then Some(m[0].value)
    else Find(m[1..], k)
  }

  function Put<K(==), V>(m: OrderedMap<K, V>, k: K, v: V): OrderedMap<K, V> {
    if m == [] then [Entry(k, v)]
    else if m[0].key == k then [Entry(k, v)] + m[1..]
    else [m[0]] + Put(m[1..], k, v)
  }

  function Remove<K(==), V>(m: OrderedMap<K, V>, k: K): OrderedMap<K, V> {
    if m == [] then []
    else if m[0].key == k then m[1..]
    else [m[0]] + Remove(m[1..], k)
  }

  function Values<K, V>(m: OrderedMap<K, V>): (vs: seq<V>)
    ensures |vs| == |m|
    ensures forall i :: 0 <= i < |m| ==> vs[i] == m[i].value
  {
    seq(|m|, i requires 0 <= i < |m| => m[i].value)
  }

  lemma {:induction false} FindIsEntry<K, V>(m: OrderedMap<K, V>, k: K, v: V)
    requires DistinctKeys(m)
    ensures Find(m, k) == Some(v) <==> Entry(k, v) in m
  {
    if m != [] {
      FindIsEntry(m[1..], k, v);
      assert m == [m[0]] + m[1..];
    }
  }

  lemma {:induction false} FindNone<K, V>(m: OrderedMap<K, V>, k: K)
    ensures Find(m, k) == None <==> forall i :: 0 <= i < |m| ==> m[i].key != k
  {
    if m != [] {
      FindNone(m[1..], k);
      if Find(m, k) == None {
        forall i | 0 <= i < |m|
          ensures m[i].key != k
        {
          assert i > 0 ==> m[i] == m[1..][i - 1];
        }
      }
    }
  }

  lemma {:induction false} FindPut<K, V>(m: OrderedMap<K, V>, k: K, v: V, j: K)
    ensures Find(Put(m, k, v), j) == if j == k then Some(v) else Find(m, j)
  {
    if m != [] && m[0].key != k {
      FindPut(m[1..], k, v, j);
    }
  }

  lemma {:induction false} PutKeys<K, V>(m: OrderedMap<K, V>, k: K, v: V)
    requires DistinctKeys(m)
    ensures DistinctKeys(Put(m, k, v))
    ensures forall e :: e in Put(m, k, v) ==> e == Entry(k, v) || e in m
  {
    if m != [] && m[0].key != k {
      PutKeys(m[1..], k, v);
      var r := Put(m[1..], k, v);
      forall j | 0 <= j < |r|
        ensures r[j].key != m[0].key
      {
        assert r[j] in r;
      }
    }
  }

  lemma {:induction false} FindRemove<K, V>(m: OrderedMap<K, V>, k: K, j: K)
    requires DistinctKeys(m)
    ensures Find(Remove(m, k), j) == if j == k then None else Find(m, j)
  {
    if m != [] {
      if m[0].key == k {
        FindNone(m[1..], k);
      } else {
        FindRemove(m[1..], k, j);
      }
    }
  }

  lemma {:induction false} RemoveKeys<K, V>(m: OrderedMap<K, V>, k: K)
    requires DistinctKeys(m)
    ensures DistinctKeys(Remove(m, k))
    ensures forall e :: e in Remove(m, k) ==> e in m && e.key != k
    ensures forall e :: e in m && e.key != k ==> e in Remove(m, k)
    ensures |Remove(m, k)| == if Find(m, k).Some? then |m| - 1 else |m|
  {
    if m != [] {
      assert m == [m[0]] + m[1..];
      if m[0].key != k {
        RemoveKeys(m[1..], k);
        var r := Remove(m[1..], k);
        forall j | 0 <= j < |r|
          ensures r[j].key != m[0].key
        {
          assert r[j] in r;
        }
      }
    }
  }
}
