/**
 * Python dictionaries as the bot uses them: a map together with the order in
 * which its keys were first inserted. Iteration follows that order,
 * assigning to a key already present keeps its place, and `del` removes the
 * key from the order.
 */
module Dicts {

  datatype Dict<K(==), V> = Dict(order: seq<K>, items: map<K, V>)

  predicate NoDuplicates<K(==)>(s: seq<K>) {
    forall i, j :: 0 <= i < j < |s| ==> s[i] != s[j]
  }

  /** The order lists each key of the map exactly once. */
  predicate Valid<K, V>(d: Dict<K, V>) {
    && NoDuplicates(d.order)
    && (forall k :: k in d.items ==> k in d.order)
    && (forall k :: k in d.order ==> k in d.items)
  }

  function Empty<K, V>(): (d: Dict<K, V>)
    ensures Valid(d) && d.items == map[] && d.order == []
  {
    Dict([], map[])
  }

  /** `d[k] = v`: a new key goes to the end of the order. */
  function Put<K, V>(d: Dict<K, V>, k: K, v: V): (r: Dict<K, V>)
    requires Valid(d)
    ensures Valid(r) && r.items == d.items[k := v]
    ensures k in d.items ==> r.order == d.order
    ensures k !in d.items ==> r.order == d.order + [k]
  {
    if k in d.items then Dict(d.order, d.items[k := v]) else Dict(d.order + [k], d.items[k := v])
  }

  /** The sequence without the occurrences of `k`, in the same order. */
  function Erase<K(==)>(s: seq<K>, k: K): seq<K> {
    if s == [] then []
    else (if s[0] == k then [] else [s[0]]) + Erase(s[1..], k)
  }

  /** Erasing keeps exactly the other keys and adds no duplicate. */
  lemma {:induction false} EraseMeaning<K>(s: seq<K>, k: K)
    ensures var r := Erase(s, k);
      && (forall i :: 0 <= i < |r| ==> r[i] in s && r[i] != k)
      && (forall i :: 0 <= i < |s| && s[i] != k ==> s[i] in r)
      && (NoDuplicates(s) ==> NoDuplicates(r))
    decreases |s|
  {
    if s != [] {
      EraseMeaning(s[1..], k);
    }
  }

  /** Erasing works piece by piece: the other keys keep their relative order. */
  lemma {:induction false} EraseAppend<K>(a: seq<K>, b: seq<K>, k: K)
    ensures Erase(a + b, k) == Erase(a, k) + Erase(b, k)
    decreases |a|
  {
    if a != [] {
      var head := if a[0] == k then [] else [a[0]];
      var ab, rest := a + b, a[1..];
      assert ab[0] == a[0] && ab[1..] == rest + b;
      calc {
        Erase(ab, k);
        head + Erase(rest + b, k);
        { EraseAppend(rest, b, k); }
        head + (Erase(rest, k) + Erase(b, k));
        (head + Erase(rest, k)) + Erase(b, k);
      }
    } else {
      assert a + b == b;
    }
  }

  /** A one-key list loses the key and keeps any other. */
  lemma EraseSingle<K>(x: K, k: K)
    ensures Erase([x], k) == if x == k then [] else [x]
  {
    assert Erase([x], k) == (if x == k then [] else [x]) + Erase([], k);
  }

  /** `del d[k]`: the key leaves the order, the others keep theirs. */
  function Remove<K, V>(d: Dict<K, V>, k: K): (r: Dict<K, V>)
    requires Valid(d)
    ensures Valid(r) && r.items == d.items - {k}
    ensures r.order == Erase(d.order, k)
  {
    EraseMeaning(d.order, k);
    Dict(Erase(d.order, k), d.items - {k})
  }

  /** `d.get(k, default)` */
  function Get<K, V>(d: Dict<K, V>, k: K, default: V): V {
    if k in d.items then d.items[k] else default
  }

  /** Assigning twice to one key is assigning the second value. */
  lemma PutPut<K, V>(d: Dict<K, V>, k: K, v1: V, v2: V)
    requires Valid(d)
    ensures Put(Put(d, k, v1), k, v2) == Put(d, k, v2)
  {
    assert d.items[k := v1][k := v2] == d.items[k := v2];
  }

  /** Deleting a key undoes an assignment to it made while it was present. */
  lemma RemovePut<K, V>(d: Dict<K, V>, k: K, v: V)
    requires Valid(d) && k in d.items
    ensures Remove(Put(d, k, v), k) == Remove(d, k)
  {
    assert d.items[k := v] - {k} == d.items - {k};
  }
}
