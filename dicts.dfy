/** Python's insertion-ordered dict: the keys in insertion order beside the key-value map.
    The order matters wherever the source iterates a dict and then sorts stably. */
module Dicts {

  datatype Dict<K, V> = Dict(keys: seq<K>, vals: map<K, V>)

  ghost predicate Distinct<K>(s: seq<K>) {
    forall i, j :: 0 <= i < j < |s| ==> s[i] != s[j]
  }

  ghost predicate Valid<K, V>(d: Dict<K, V>) {
    Distinct(d.keys) && (forall k :: k in d.vals ==> k in d.keys) && (forall k :: k in d.keys ==> k in d.vals)
  }

  function Empty<K, V>(): (d: Dict<K, V>)
    ensures Valid(d) && d.keys == [] && d.vals == map[]
  {
    Dict([], map[])
  }

  /** `d[k] = v`: an existing key keeps its place, a new key goes last. */
  function Set<K, V>(d: Dict<K, V>, k: K, v: V): (r: Dict<K, V>)
    requires Valid(d)
    ensures Valid(r)
    ensures r.vals == d.vals[k := v]
    ensures k in d.vals ==> r.keys == d.keys
    ensures k !in d.vals ==> r.keys == d.keys + [k]
  {
    if k in d.vals then Dict(d.keys, d.vals[k := v]) else Dict(d.keys + [k], d.vals[k := v])
  }

  /** Writing back a key's own value changes nothing. */
  lemma SetSame<K, V>(d: Dict<K, V>, k: K)
    requires Valid(d) && k in d.vals
    ensures Set(d, k, d.vals[k]) == d
  {
    assert d.vals[k := d.vals[k]] == d.vals;
  }

  /** A second write to the same key replaces the first. */
  lemma SetSet<K, V>(d: Dict<K, V>, k: K, a: V, b: V)
    requires Valid(d)
    ensures Set(Set(d, k, a), k, b) == Set(d, k, b)
  {
    assert d.vals[k := a][k := b] == d.vals[k := b];
  }

  /** The sequence without any occurrence of `k`, the others in their order. */
  function Without<K(==)>(s: seq<K>, k: K): (r: seq<K>)
    ensures forall x :: x in r ==> x in s && x != k
    ensures forall x :: x in s && x != k ==> x in r
    ensures |r| <= |s|
    ensures Distinct(s) ==> Distinct(r)
  {
    if s == [] then []
    else if s[0] == k then Without(s[1..], k)
    else
      var rest := Without(s[1..], k);
      assert Distinct(s) ==> s[0] !in s[1..];
      [s[0]] + rest
  }

  /** `d.pop(k, None)`: the key and its value disappear, the other keys keep their order. */
  function Remove<K(==), V>(d: Dict<K, V>, k: K): (r: Dict<K, V>)
    requires Valid(d)
    ensures Valid(r)
    ensures r.vals == d.vals - {k}
    ensures r.keys == Without(d.keys, k)
    ensures k !in d.vals ==> r == d
  {
    if k !in d.vals then
      WithoutAbsent(d.keys, k);
      d
    else Dict(Without(d.keys, k), d.vals - {k})
  }

  lemma WithoutAbsent<K>(s: seq<K>, k: K)
    requires k !in s
    ensures Without(s, k) == s
  {
    if s != [] {
      WithoutAbsent(s[1..], k);
    }
  }

  /** The sum of `f` over the values of the dict, in key order. */
  function SumOver<K, V>(keys: seq<K>, vals: map<K, V>, f: V -> int): int
    requires forall k :: k in keys ==> k in vals
  {
    if keys == [] then 0 else f(vals[keys[0]]) + SumOver(keys[1..], vals, f)
  }

  /** Replacing the value of one present key changes the sum by the difference. */
  lemma {:induction false} SumOverUpdate<K, V>(keys: seq<K>, vals: map<K, V>, f: V -> int, k: K, v: V)
    requires forall x :: x in keys ==> x in vals
    requires Distinct(keys) && k in keys
    ensures SumOver(keys, vals[k := v], f) == SumOver(keys, vals, f) - f(vals[k]) + f(v)
  {
    if keys[0] == k {
      assert k !in keys[1..];
      SumOverOther(keys[1..], vals, f, k, v);
    } else {
      SumOverUpdate(keys[1..], vals, f, k, v);
    }
  }

  /** Changing a key that is not listed leaves the sum alone. */
  lemma {:induction false} SumOverOther<K, V>(keys: seq<K>, vals: map<K, V>, f: V -> int, k: K, v: V)
    requires forall x :: x in keys ==> x in vals
    requires k !in keys
    ensures SumOver(keys, vals[k := v], f) == SumOver(keys, vals, f)
  {
    if keys != [] {
      SumOverOther(keys[1..], vals, f, k, v);
    }
  }

  /** Appending a new key adds its value to the sum. */
  lemma {:induction false} SumOverAppend<K, V>(keys: seq<K>, vals: map<K, V>, f: V -> int, k: K, v: V)
    requires forall x :: x in keys ==> x in vals
    requires k !in keys
    ensures SumOver(keys + [k], vals[k := v], f) == SumOver(keys, vals, f) + f(v)
  {
    if keys == [] {
      assert keys + [k] == [k];
    } else {
      assert (keys + [k])[1..] == keys[1..] + [k];
      SumOverAppend(keys[1..], vals, f, k, v);
    }
  }
}
