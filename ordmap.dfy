/** Python dictionaries keep insertion order, and the nodes depend on it: the first route
    found wins a tie, and messages leave in table order. An `OMap` is a map together with
    the order in which its keys were first inserted. */
module OrdMap {

  datatype OMap<K(==,!new), V> = OMap(keys: seq<K>, m: map<K, V>) {

    /** Keys are listed once each, and exactly the keys of the map are listed. */
    predicate Valid() {
      (forall i, j | 0 <= i < j < |keys| :: keys[i] != keys[j]) &&
      (forall k | k in m :: k in keys) &&
      (forall i | 0 <= i < |keys| :: keys[i] in m)
    }

    /** `d[k] = v`: an existing key keeps its place, a new key goes last. */
    function Put(k: K, v: V): (r: OMap<K, V>)
      ensures Valid() ==> r.Valid()
      ensures r.m == m[k := v]
      ensures k in m ==> r.keys == keys
      ensures k !in m ==> r.keys == keys + [k]
    {
      OMap(if k in m then keys else keys + [k], m[k := v])
    }

    /** `del d[k]`: the key leaves the order, the others keep theirs. */
    function Remove(k: K): (r: OMap<K, V>)
      ensures Valid() ==> r.Valid()
      ensures r.m == m - {k}
      ensures forall x :: x in r.keys <==> x in keys && x != k
    {
      var ks := Without(keys, k);
      assert forall i | 0 <= i < |ks| :: ks[i] in ks;
      OMap(ks, m - {k})
    }
  }

  /** `{}` */
  function Empty<K(==,!new), V>(): (r: OMap<K, V>)
    ensures r.Valid() && r.keys == [] && r.m == map[]
  {
    OMap([], map[])
  }

  /** The keys of `s` other than `k`, in their order. */
  function Without<K(==,!new)>(s: seq<K>, k: K): (r: seq<K>)
    ensures forall x :: x in r <==> x in s && x != k
    ensures (forall i, j | 0 <= i < j < |s| :: s[i] != s[j]) ==>
              (forall i, j | 0 <= i < j < |r| :: r[i] != r[j])
  {
    if s == [] then []
    else if s[0] == k then Without(s[1..], k)
    else
      assert (forall i, j | 0 <= i < j < |s| :: s[i] != s[j]) ==> s[0] !in s[1..];
      [s[0]] + Without(s[1..], k)
  }

  /** The map after `d[k] = f(k, d[k])` has run for the first `i` of `keys`, in order. */
  function UpdatedPrefix<K(==,!new), V>(keys: seq<K>, m: map<K, V>, f: (K, V) -> V, i: nat): (r: map<K, V>)
    requires i <= |keys| && forall j | 0 <= j < |keys| :: keys[j] in m
  {
    if i == 0 then m
    else UpdatedPrefix(keys, m, f, i - 1)[keys[i - 1] := f(keys[i - 1], m[keys[i - 1]])]
  }

  /** With distinct keys, after `i` updates the first `i` keys hold their new value, the
      other keys their old one, and no key has come or gone. */
  lemma {:induction false} UpdatedPrefixEntries<K(!new), V>(keys: seq<K>, m: map<K, V>, f: (K, V) -> V, i: nat)
    requires i <= |keys| && forall j | 0 <= j < |keys| :: keys[j] in m
    requires forall j, k | 0 <= j < k < |keys| :: keys[j] != keys[k]
    ensures UpdatedPrefix(keys, m, f, i).Keys == m.Keys
    ensures forall j | 0 <= j < i :: UpdatedPrefix(keys, m, f, i)[keys[j]] == f(keys[j], m[keys[j]])
    ensures forall j | i <= j < |keys| :: UpdatedPrefix(keys, m, f, i)[keys[j]] == m[keys[j]]
    decreases i
  {
    if i > 0 {
      UpdatedPrefixEntries(keys, m, f, i - 1);
      forall j | 0 <= j < |keys| && j != i - 1
        ensures UpdatedPrefix(keys, m, f, i)[keys[j]] == UpdatedPrefix(keys, m, f, i - 1)[keys[j]]
      {
        assert keys[j] != keys[i - 1];
      }
    }
  }

  /** The next key to update still holds its old value. */
  lemma UpdatedPrefixNext<K(!new), V>(d: OMap<K, V>, f: (K, V) -> V, i: nat)
    requires d.Valid() && i < |d.keys|
    ensures d.keys[i] in UpdatedPrefix(d.keys, d.m, f, i)
    ensures UpdatedPrefix(d.keys, d.m, f, i)[d.keys[i]] == d.m[d.keys[i]]
  {
    UpdatedPrefixEntries(d.keys, d.m, f, i);
  }

  /** Updating every key of a valid ordered map, in order, updates each entry once. */
  lemma UpdatedAll<K(!new), V>(d: OMap<K, V>, f: (K, V) -> V)
    requires d.Valid()
    ensures UpdatedPrefix(d.keys, d.m, f, |d.keys|) == map k | k in d.m :: f(k, d.m[k])
  {
    var r := UpdatedPrefix(d.keys, d.m, f, |d.keys|);
    UpdatedPrefixEntries(d.keys, d.m, f, |d.keys|);
    forall k | k in d.m
      ensures r[k] == f(k, d.m[k])
    {
      var j :| 0 <= j < |d.keys| && d.keys[j] == k;
    }
  }
}
