/**
 * Java's `LinkedHashMap<String, V>` as a value: the entries in iteration order, which is the order
 * in which each key was first inserted. Kotlin's `mutableMapOf`, `toMap` and the maps handed
 * around by the core all behave this way.
 */
module OrderedMaps {
  import opened Wrappers

  type OrderedMap<V> = seq<(string, V)>

  /** The keys, in iteration order. */
  function Keys<V>(m: OrderedMap<V>): (r: seq<string>)
    ensures |r| == |m|
    ensures forall i | 0 <= i < |m| :: r[i] == m[i].0
  {
    if m == [] then [] else [m[0].0] + Keys(m[1..])
  }

  /** No key occurs twice; every map the source builds has this shape. */
  predicate NoDuplicateKeys<V>(m: OrderedMap<V>) {
    forall i, j | 0 <= i < j < |m| :: m[i].0 != m[j].0
  }

  /** `get(k)`: the value stored under `k`, or `null`. */
  function Get<V>(m: OrderedMap<V>, k: string): (r: Option<V>)
    ensures r.Some? <==> k in Keys(m)
    ensures r.Some? ==> exists i | 0 <= i < |m| :: m[i] == (k, r.value)
  {
    if m == [] then None
    else if m[0].0 == k then Some(m[0].1)
    else
      var r := Get(m[1..], k);
      assert r.Some? ==> exists i | 0 <= i < |m[1..]| :: m[1..][i] == (k, r.value);
      r
  }

  /** `getOrDefault(k, d)`. */
  function GetOrDefault<V>(m: OrderedMap<V>, k: string, d: V): V {
    Get(m, k).GetOr(d)
  }

  /** In a map without duplicate keys, every entry is what `get` finds under its key. */
  lemma {:induction false} GetEntry<V>(m: OrderedMap<V>, i: nat)
    requires NoDuplicateKeys(m) && i < |m|
    ensures Get(m, m[i].0) == Some(m[i].1)
  {
    if i > 0 {
      GetEntry(m[1..], i - 1);
    }
  }

  /**
   * `put(k, v)`: afterwards `get(k)` is `v` and every other key reads as before. Where the key
   * goes is stated by `PutKeys`.
   */
  function Put<V>(m: OrderedMap<V>, k: string, v: V): (r: OrderedMap<V>)
    ensures Get(r, k) == Some(v)
    ensures forall k' | k' != k :: Get(r, k') == Get(m, k')
  {
    if m == [] then [(k, v)]
    else if m[0].0 == k then [(k, v)] + m[1..]
    else
      var r := [m[0]] + Put(m[1..], k, v);
      assert r[1..] == Put(m[1..], k, v);
      r
  }

  /** A key already present keeps its place under `put`; a new key goes to the end. */
  lemma {:induction false} PutKeys<V>(m: OrderedMap<V>, k: string, v: V)
    ensures Keys(Put(m, k, v)) == if k in Keys(m) then Keys(m) else Keys(m) + [k]
  {
    if m != [] {
      var r := Put(m, k, v);
      assert r[1..] == if m[0].0 == k then m[1..] else Put(m[1..], k, v);
      assert Keys(r) == [r[0].0] + Keys(r[1..]);
      assert Keys(m) == [m[0].0] + Keys(m[1..]);
      if m[0].0 != k {
        PutKeys(m[1..], k, v);
      }
    }
  }

  /** `put` keeps the keys distinct. */
  lemma PutNoDuplicateKeys<V>(m: OrderedMap<V>, k: string, v: V)
    requires NoDuplicateKeys(m)
    ensures NoDuplicateKeys(Put(m, k, v))
  {
    var r := Put(m, k, v);
    PutKeys(m, k, v);
    var ks, km := Keys(r), Keys(m);
    forall i, j | 0 <= i < j < |r| ensures r[i].0 != r[j].0 {
      assert r[i].0 == ks[i] && r[j].0 == ks[j];
      assert ks[i] == km[i] == m[i].0;
      if j < |m| {
        assert ks[j] == km[j] == m[j].0;
      } else {
        assert ks[j] == k && k !in km;
      }
    }
  }

  /** The entries after `put(k, v)` are old entries or the new one. */
  lemma {:induction false} PutEntries<V>(m: OrderedMap<V>, k: string, v: V)
    ensures forall e | e in Put(m, k, v) :: e in m || e == (k, v)
  {
    if m != [] && m[0].0 != k {
      PutEntries(m[1..], k, v);
    }
  }

  /** `putAll(other)`: `put` of every entry of `other`, in `other`'s order. */
  function PutAll<V>(m: OrderedMap<V>, other: OrderedMap<V>): OrderedMap<V>
    decreases |other|
  {
    if other == [] then m else PutAll(Put(m, other[0].0, other[0].1), other[1..])
  }

  /** After `putAll(other)`, a key of `other` reads as in `other`, any other key as before. */
  lemma {:induction false} PutAllGet<V>(m: OrderedMap<V>, other: OrderedMap<V>, k: string)
    requires NoDuplicateKeys(other)
    ensures Get(PutAll(m, other), k) == if k in Keys(other) then Get(other, k) else Get(m, k)
    decreases |other|
  {
    if other != [] {
      var m' := Put(m, other[0].0, other[0].1);
      PutAllGet(m', other[1..], k);
      if k in Keys(other[1..]) {
        assert k != other[0].0;
      }
    }
  }

  /** `putAll` keeps the keys distinct. */
  lemma {:induction false} PutAllNoDuplicateKeys<V>(m: OrderedMap<V>, other: OrderedMap<V>)
    requires NoDuplicateKeys(m)
    ensures NoDuplicateKeys(PutAll(m, other))
    decreases |other|
  {
    if other != [] {
      PutNoDuplicateKeys(m, other[0].0, other[0].1);
      PutAllNoDuplicateKeys(Put(m, other[0].0, other[0].1), other[1..]);
    }
  }

  /** The mathematical map an ordered map stands for, when its keys are distinct. */
  function ToMap<V>(m: OrderedMap<V>): (r: map<string, V>)
    ensures forall k :: k in r <==> Get(m, k).Some?
    ensures forall k | k in r :: r[k] == Get(m, k).value
  {
    if m == [] then map[] else ToMap(m[1..])[m[0].0 := m[0].1]
  }
}
