/** A dictionary that remembers the order its keys were first added in, as a JavaScript
    `Map` or the string keys of a plain object do: the entries in insertion order. */
module InsertionMap {
  import opened Wrappers

  type Entries<K(==), V> = seq<(K, V)>

  /** Where key `k` sits among the entries, searching from `from`. */
  function FindKey<K(==), V>(es: Entries<K, V>, k: K, from: nat): (r: Option<nat>)
    ensures r.Some? ==> from <= r.value < |es| && es[r.value].0 == k
    ensures r.Some? ==> forall i :: from <= i < r.value ==> es[i].0 != k
    ensures r.None? ==> forall i :: from <= i < |es| ==> es[i].0 != k
    decreases |es| - from
  {
    if from >= |es| then None
    else if es[from].0 == k then Some(from)
    else FindKey(es, k, from + 1)
  }

  /** The value stored under `k`, if any. */
  function Get<K(==), V>(es: Entries<K, V>, k: K): (r: Option<V>)
    ensures r.Some? ==> exists i :: 0 <= i < |es| && es[i] == (k, r.value)
    ensures r.None? <==> forall i :: 0 <= i < |es| ==> es[i].0 != k
  {
    match FindKey(es, k, 0)
    case Some(i) => assert es[i] == (k, es[i].1); Some(es[i].1)
    case None => None
  }

  /** `set(k, v)`: an existing key keeps its place and takes the new value; a new key goes
      to the end. */
  function Put<K(==), V>(es: Entries<K, V>, k: K, v: V): (r: Entries<K, V>)
    ensures (exists i :: 0 <= i < |es| && es[i].0 == k) ==> |r| == |es|
    ensures !(exists i :: 0 <= i < |es| && es[i].0 == k) ==> r == es + [(k, v)]
  {
    match FindKey(es, k, 0)
    case Some(i) => es[i := (k, v)]
    case None => es + [(k, v)]
  }

  /** An existing key keeps its place, the first entry with that key, and only that
      entry changes: it takes the new value. */
  lemma PutInPlace<K, V>(es: Entries<K, V>, k: K, v: V, i: nat)
    requires i < |es| && es[i].0 == k && forall j :: 0 <= j < i ==> es[j].0 != k
    ensures Put(es, k, v) == es[i := (k, v)]
  {
    FindKeyFirst(es, k, i);
  }

  function KeysOf<K(==), V>(es: Entries<K, V>): (r: seq<K>)
    ensures |r| == |es| && forall i :: 0 <= i < |es| ==> r[i] == es[i].0
  {
    seq(|es|, i requires 0 <= i < |es| => es[i].0)
  }

  predicate DistinctKeys<K(==), V>(es: Entries<K, V>) {
    forall i, j :: 0 <= i < j < |es| ==> es[i].0 != es[j].0
  }

  /** Storing keeps the keys distinct, adds the key at the end if it is new, gives the key
      its new value and leaves every other entry alone. */
  lemma PutEntries<K, V>(es: Entries<K, V>, k: K, v: V)
    requires DistinctKeys(es)
    ensures DistinctKeys(Put(es, k, v))
    ensures KeysOf(Put(es, k, v)) == if k in KeysOf(es) then KeysOf(es) else KeysOf(es) + [k]
    ensures forall i :: 0 <= i < |es| && es[i].0 != k ==> Put(es, k, v)[i] == es[i]
    ensures forall i :: 0 <= i < |Put(es, k, v)| && Put(es, k, v)[i].0 == k ==> Put(es, k, v)[i].1 == v
    ensures Get(Put(es, k, v), k) == Some(v)
  {
    match FindKey(es, k, 0)
    case Some(i) =>
      assert KeysOf(es)[i] == k;
      assert KeysOf(Put(es, k, v)) == KeysOf(es);
      assert Put(es, k, v)[i] == (k, v);
    case None =>
      assert k !in KeysOf(es);
      assert Put(es, k, v)[|es|] == (k, v);
  }

  /** With distinct keys, `Get` finds the one entry with that key. */
  lemma GetDistinct<K, V>(es: Entries<K, V>, i: nat)
    requires DistinctKeys(es) && i < |es|
    ensures Get(es, es[i].0) == Some(es[i].1)
  {
  }

  /** The search stops at the first entry with the key. */
  lemma FindKeyFirst<K, V>(es: Entries<K, V>, k: K, i: nat)
    requires i < |es| && es[i].0 == k && forall j :: 0 <= j < i ==> es[j].0 != k
    ensures FindKey(es, k, 0) == Some(i)
  {
    var r := FindKey(es, k, 0);
    assert r.Some? && es[r.value].0 == k;
  }

  /** Reading back what was just stored. */
  lemma PutGet<K, V>(es: Entries<K, V>, k: K, v: V)
    ensures Get(Put(es, k, v), k) == Some(v)
  {
    match FindKey(es, k, 0)
    case Some(i) =>
      FindKeyFirst(Put(es, k, v), k, i);
    case None =>
      FindKeyFirst(Put(es, k, v), k, |es|);
  }

  /** Storing twice under one key is storing the second value. */
  lemma PutPut<K, V>(es: Entries<K, V>, k: K, v1: V, v2: V)
    ensures Put(Put(es, k, v1), k, v2) == Put(es, k, v2)
  {
    match FindKey(es, k, 0)
    case Some(i) =>
      FindKeyFirst(Put(es, k, v1), k, i);
    case None =>
      FindKeyFirst(Put(es, k, v1), k, |es|);
  }
}
