/**
 JavaScript's `Map` as a value: entries in insertion order. Setting a key that
 is present keeps its place; a deleted key that is set again goes to the end.
 */
module JsMap {
  import opened Results

  datatype Entry<K, V> = Entry(key: K, value: V)

  predicate Distinct<K(==), V>(m: seq<Entry<K, V>>) {
    forall i, j | 0 <= i < j < |m| :: m[i].key != m[j].key
  }

  function Get<K(==), V>(m: seq<Entry<K, V>>, k: K): (r: Option<V>)
    ensures r.Some? <==> exists i :: 0 <= i < |m| && m[i].key == k
    ensures r.Some? ==> exists i :: 0 <= i < |m| && m[i] == Entry(k, r.value)
  {
    if m == [] then None
    else if m[0].key == k then Some(m[0].value)
    else
      assert forall i | 0 < i < |m| :: m[i] == m[1..][i - 1];
      Get(m[1..], k)
  }

  predicate Has<K(==), V>(m: seq<Entry<K, V>>, k: K) {
    Get(m, k).Some?
  }

  function Set<K(==), V>(m: seq<Entry<K, V>>, k: K, v: V): (r: seq<Entry<K, V>>)
    ensures |m| <= |r| <= |m| + 1
  {
    if m == [] then [Entry(k, v)]
    else if m[0].key == k then [Entry(k, v)] + m[1..]
    else [m[0]] + Set(m[1..], k, v)
  }

  function Delete<K(==), V>(m: seq<Entry<K, V>>, k: K): (r: seq<Entry<K, V>>)
    ensures |r| <= |m|
  {
    if m == [] then []
    else if m[0].key == k then Delete(m[1..], k)
    else [m[0]] + Delete(m[1..], k)
  }

  /** The entries whose value does not satisfy `drop`. */
  function Without<K, V>(m: seq<Entry<K, V>>, drop: V -> bool): seq<Entry<K, V>> {
    if m == [] then []
    else (if drop(m[0].value) then [] else [m[0]]) + Without(m[1..], drop)
  }

  lemma {:induction false} GetSet<K, V>(m: seq<Entry<K, V>>, k: K, v: V, other: K)
    ensures Get(Set(m, k, v), other) == if other == k then Some(v) else Get(m, other)
  {
    if m == [] {
      assert [Entry(k, v)][1..] == [];
    } else if m[0].key == k {
      assert ([Entry(k, v)] + m[1..])[1..] == m[1..];
    } else {
      GetSet(m[1..], k, v, other);
      assert ([m[0]] + Set(m[1..], k, v))[1..] == Set(m[1..], k, v);
    }
  }

  lemma {:induction false} GetDelete<K, V>(m: seq<Entry<K, V>>, k: K, other: K)
    ensures Get(Delete(m, k), other) == if other == k then None else Get(m, other)
  {
    if m != [] {
      GetDelete(m[1..], k, other);
      if m[0].key != k {
        assert ([m[0]] + Delete(m[1..], k))[1..] == Delete(m[1..], k);
      }
    }
  }

  lemma {:induction false} GetWithout<K, V>(m: seq<Entry<K, V>>, drop: V -> bool, k: K)
    requires Distinct(m)
    ensures Get(Without(m, drop), k) ==
      if Get(m, k).Some? && !drop(Get(m, k).value) then Get(m, k) else None
  {
    if m != [] {
      var rest := Without(m[1..], drop);
      DistinctTail(m);
      GetWithout(m[1..], drop, k);
      if drop(m[0].value) {
        assert Without(m, drop) == [] + rest == rest;
      } else {
        assert Without(m, drop) == [m[0]] + rest;
        assert ([m[0]] + rest)[1..] == rest;
      }
    }
  }

  lemma DistinctTail<K, V>(m: seq<Entry<K, V>>)
    requires m != [] && Distinct(m)
    ensures Distinct(m[1..]) && Get(m[1..], m[0].key).None?
  {
  }

  lemma {:induction false} GetAt<K, V>(m: seq<Entry<K, V>>, i: nat)
    requires Distinct(m) && i < |m|
    ensures Get(m, m[i].key) == Some(m[i].value)
  {
    if i > 0 {
      DistinctTail(m);
      GetAt(m[1..], i - 1);
    }
  }

  lemma DistinctCons<K, V>(e: Entry<K, V>, m: seq<Entry<K, V>>)
    requires Distinct(m) && Get(m, e.key).None?
    ensures Distinct([e] + m)
  {
  }

  lemma {:induction false} SetDistinct<K, V>(m: seq<Entry<K, V>>, k: K, v: V)
    requires Distinct(m)
    ensures Distinct(Set(m, k, v))
  {
    if m != [] {
      DistinctTail(m);
      if m[0].key == k {
        DistinctCons(Entry(k, v), m[1..]);
      } else {
        SetDistinct(m[1..], k, v);
        GetSet(m[1..], k, v, m[0].key);
        DistinctCons(m[0], Set(m[1..], k, v));
      }
    }
  }

  lemma {:induction false} DeleteDistinct<K, V>(m: seq<Entry<K, V>>, k: K)
    requires Distinct(m)
    ensures Distinct(Delete(m, k))
  {
    if m != [] {
      DistinctTail(m);
      DeleteDistinct(m[1..], k);
      GetDelete(m[1..], k, m[0].key);
      if m[0].key != k {
        DistinctCons(m[0], Delete(m[1..], k));
      }
    }
  }

  lemma {:induction false} WithoutDistinct<K, V>(m: seq<Entry<K, V>>, drop: V -> bool)
    requires Distinct(m)
    ensures Distinct(Without(m, drop))
  {
    if m != [] {
      DistinctTail(m);
      WithoutDistinct(m[1..], drop);
      GetWithout(m[1..], drop, m[0].key);
      if drop(m[0].value) {
        assert Without(m, drop) == [] + Without(m[1..], drop) == Without(m[1..], drop);
      } else {
        DistinctCons(m[0], Without(m[1..], drop));
      }
    }
  }

  /** A key that is new goes to the end. */
  lemma {:induction false} SetAbsent<K, V>(m: seq<Entry<K, V>>, k: K, v: V)
    requires Get(m, k).None?
    ensures Set(m, k, v) == m + [Entry(k, v)]
  {
    if m != [] {
      SetAbsent(m[1..], k, v);
      assert m == [m[0]] + m[1..];
    }
  }

  /** A key that is present keeps its place. */
  lemma {:induction false} SetPresent<K, V>(m: seq<Entry<K, V>>, i: nat, v: V)
    requires i < |m| && Distinct(m)
    ensures Set(m, m[i].key, v) == m[i := Entry(m[i].key, v)]
  {
    if i == 0 {
      assert m[0 := Entry(m[0].key, v)] == [Entry(m[0].key, v)] + m[1..];
    } else {
      DistinctTail(m);
      SetPresent(m[1..], i - 1, v);
      assert m[1..][i - 1] == m[i];
      assert m[i := Entry(m[i].key, v)] == [m[0]] + m[1..][i - 1 := Entry(m[i].key, v)];
    }
  }

  lemma {:induction false} DeleteAbsent<K, V>(m: seq<Entry<K, V>>, k: K)
    requires Get(m, k).None?
    ensures Delete(m, k) == m
  {
    if m != [] {
      DeleteAbsent(m[1..], k);
      assert m == [m[0]] + m[1..];
    }
  }

  lemma {:induction false} DeleteAt<K, V>(m: seq<Entry<K, V>>, i: nat)
    requires i < |m| && Distinct(m)
    ensures Delete(m, m[i].key) == m[..i] + m[i + 1..]
    ensures Distinct(Delete(m, m[i].key))
  {
    DeleteDistinct(m, m[i].key);
    DistinctTail(m);
    if i == 0 {
      DeleteAbsent(m[1..], m[0].key);
    } else {
      DeleteAt(m[1..], i - 1);
      assert m[..i] + m[i + 1..] == [m[0]] + (m[1..][..i - 1] + m[1..][i..]);
    }
  }
}
