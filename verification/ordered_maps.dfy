/**
 * Python's `dict` as the converter uses it: keys remember the position of
 * their first insertion, and assigning to an existing key replaces its value
 * without moving it.
 */
module OrderedMaps {

  /** The elements of `s` are pairwise different. */
  predicate Distinct<T(==)>(s: seq<T>) {
    forall i, j :: 0 <= i < j < |s| ==> s[i] != s[j]
  }

  /** A sequence without repetitions has as many elements as its set. */
  lemma {:induction false} DistinctCard<T>(s: seq<T>)
    requires Distinct(s)
    ensures |set x | x in s| == |s|
  {
    if s != [] {
      var n := |s| - 1;
      DistinctCard(s[..n]);
      assert (set x | x in s) == (set x | x in s[..n]) + {s[n]};
      assert s[n] !in s[..n];
    }
  }

  /** An insertion-ordered dictionary: `keys` in first-insertion order, `entries` the key-value pairs. */
  datatype OrderedMap<K, V> = OrderedMap(keys: seq<K>, entries: map<K, V>) {

    /** Every key is listed once, and the listed keys are exactly those with an entry. */
    predicate Valid() {
      && Distinct(keys)
      && (forall k | k in entries :: k in keys)
      && (forall i | 0 <= i < |keys| :: keys[i] in entries)
    }

    /** `d[k] = v`: a new key goes last, an existing key keeps its place and takes the new value. */
    function Put(k: K, v: V): (m: OrderedMap<K, V>)
      requires Valid()
      ensures m.Valid()
      ensures m.entries == entries[k := v]
      ensures k in entries ==> m.keys == keys
      ensures k !in entries ==> m.keys == keys + [k]
    {
      if k in entries then OrderedMap(keys, entries[k := v])
      else OrderedMap(keys + [k], entries[k := v])
    }

    /** `list(d.values())`: the values in key-insertion order. */
    function Values(): (vs: seq<V>)
      requires Valid()
      ensures |vs| == |keys| == |entries|
      ensures forall i :: 0 <= i < |keys| ==> vs[i] == entries[keys[i]]
    {
      DistinctCard(keys);
      assert entries.Keys == set k | k in keys;
      seq(|keys|, i requires 0 <= i < |keys| => entries[keys[i]])
    }
  }

  /** `{}` */
  function Empty<K, V>(): (m: OrderedMap<K, V>)
    ensures m.Valid() && m.keys == [] && m.entries == map[]
  {
    OrderedMap([], map[])
  }

  /** The keys of a sequence of key-value pairs, in order. */
  function KeysOf<K, V>(kvs: seq<(K, V)>): (ks: seq<K>)
    ensures |ks| == |kvs|
    ensures forall i :: 0 <= i < |kvs| ==> ks[i] == kvs[i].0
  {
    seq(|kvs|, i requires 0 <= i < |kvs| => kvs[i].0)
  }

  /** The position of the first occurrence of `x` in `s`. */
  function FirstIndex<T(==)>(s: seq<T>, x: T): (r: nat)
    requires x in s
    ensures r < |s| && s[r] == x
    ensures forall j :: 0 <= j < r ==> s[j] != x
  {
    if s[0] == x then 0 else 1 + FirstIndex(s[1..], x)
  }

  /** The position of the last occurrence of `x` in `s`. */
  function LastIndex<T(==)>(s: seq<T>, x: T): (r: nat)
    requires x in s
    ensures r < |s| && s[r] == x
    ensures forall j :: r < j < |s| ==> s[j] != x
  {
    var n := |s| - 1;
    if s[n] == x then n else LastIndex(s[..n], x)
  }

  /** `{k: v for (k, v) in kvs}` evaluated into `m`: one `Put` per pair, left to right. */
  function PutAll<K, V>(m: OrderedMap<K, V>, kvs: seq<(K, V)>): (r: OrderedMap<K, V>)
    requires m.Valid()
    ensures r.Valid()
    decreases |kvs|
  {
    if kvs == [] then m
    else
      var n := |kvs| - 1;
      PutAll(m, kvs[..n]).Put(kvs[n].0, kvs[n].1)
  }

  /** One more pair is one more `Put`. */
  lemma PutAllStep<K, V>(m: OrderedMap<K, V>, kvs: seq<(K, V)>, k: K, v: V)
    requires m.Valid()
    ensures PutAll(m, kvs + [(k, v)]) == PutAll(m, kvs).Put(k, v)
  {
    assert (kvs + [(k, v)])[..|kvs|] == kvs;
  }

  /** The keys after `PutAll` are the old keys and the keys of the pairs, nothing else. */
  lemma {:induction false} PutAllKeys<K, V>(m: OrderedMap<K, V>, kvs: seq<(K, V)>)
    requires m.Valid()
    ensures forall k :: k in PutAll(m, kvs).entries <==> k in m.entries || k in KeysOf(kvs)
    ensures m.keys <= PutAll(m, kvs).keys
  {
    if kvs != [] {
      var n := |kvs| - 1;
      PutAllKeys(m, kvs[..n]);
      assert KeysOf(kvs) == KeysOf(kvs[..n]) + [kvs[n].0];
    }
  }

  /** Starting from `{}`, a key is listed exactly when some pair has it. */
  lemma PutAllListed<K, V>(kvs: seq<(K, V)>, k: K)
    ensures k in PutAll(Empty(), kvs).keys <==> k in KeysOf(kvs)
  {
    var e: OrderedMap<K, V> := Empty();
    var m := PutAll(e, kvs);
    PutAllKeys(e, kvs);
    if k in m.keys {
      var i :| 0 <= i < |m.keys| && m.keys[i] == k;
      assert k in m.entries;
    }
  }

  /** Starting from `{}`, there are as many keys as there are distinct keys among the pairs. */
  lemma PutAllCount<K, V>(kvs: seq<(K, V)>)
    ensures |PutAll(Empty(), kvs).keys| == |set k | k in KeysOf(kvs)|
  {
    var m: OrderedMap<K, V> := PutAll(Empty(), kvs);
    DistinctCard(m.keys);
    var listed, written := set k | k in m.keys, set k | k in KeysOf(kvs);
    forall k | k in listed ensures k in written {
      PutAllListed(kvs, k);
    }
    forall k | k in written ensures k in listed {
      PutAllListed(kvs, k);
    }
    assert listed == written;
  }

  /** Last write wins: a pair that no later pair overrides gives its key's final value. */
  lemma {:induction false} PutAllLastWins<K, V>(m: OrderedMap<K, V>, kvs: seq<(K, V)>, i: nat)
    requires m.Valid()
    requires i < |kvs|
    requires forall j :: i < j < |kvs| ==> kvs[j].0 != kvs[i].0
    ensures kvs[i].0 in PutAll(m, kvs).entries
    ensures PutAll(m, kvs).entries[kvs[i].0] == kvs[i].1
  {
    var n := |kvs| - 1;
    if i < n {
      PutAllLastWins(m, kvs[..n], i);
    }
  }

  /** A key that no pair mentions keeps the value it had in `m`. */
  lemma {:induction false} PutAllUntouched<K, V>(m: OrderedMap<K, V>, kvs: seq<(K, V)>, k: K)
    requires m.Valid()
    requires k in m.entries
    requires k !in KeysOf(kvs)
    ensures k in PutAll(m, kvs).entries && PutAll(m, kvs).entries[k] == m.entries[k]
  {
    if kvs != [] {
      var n := |kvs| - 1;
      assert KeysOf(kvs) == KeysOf(kvs[..n]) + [kvs[n].0];
      PutAllUntouched(m, kvs[..n], k);
    }
  }

  /** Every value in the result was written by some pair with that key, unless the key was untouched. */
  lemma {:induction false} PutAllValueFrom<K, V>(m: OrderedMap<K, V>, kvs: seq<(K, V)>, k: K)
    requires m.Valid()
    requires k in PutAll(m, kvs).entries
    requires k !in m.entries
    ensures exists i :: 0 <= i < |kvs| && kvs[i] == (k, PutAll(m, kvs).entries[k])
  {
    var n := |kvs| - 1;
    if kvs[n].0 != k {
      PutAllValueFrom(m, kvs[..n], k);
      var i :| 0 <= i < n && kvs[..n][i] == (k, PutAll(m, kvs[..n]).entries[k]);
      assert kvs[i] == kvs[..n][i];
    } else {
      assert kvs[n] == (k, PutAll(m, kvs).entries[k]);
    }
  }

  /** An element found in a prefix is first found at the same place in the whole sequence. */
  lemma FirstIndexPrefix<T>(s: seq<T>, n: nat, x: T)
    requires n <= |s| && x in s[..n]
    ensures x in s && FirstIndex(s, x) == FirstIndex(s[..n], x) < n
  {
    var f := FirstIndex(s[..n], x);
    assert s[f] == x;
    var g := FirstIndex(s, x);
    assert s[..n][g] == x;
  }

  /** Every element of `keys` occurs in `s`, and `keys` lists them in the order of their first occurrence there. */
  predicate FirstSeenOrder<T(==)>(keys: seq<T>, s: seq<T>) {
    && (forall a | 0 <= a < |keys| :: keys[a] in s)
    && (forall a, b | 0 <= a < b < |keys| :: FirstIndex(s, keys[a]) < FirstIndex(s, keys[b]))
  }

  /**
   * A key list kept in first-seen order over `s[..n]` stays so over `s` when
   * it is left as it is or the last element of `s`, new, is appended.
   */
  lemma FirstSeenOrderExtend<T>(prev: seq<T>, keys: seq<T>, s: seq<T>, n: nat)
    requires n < |s| && n == |s| - 1
    requires FirstSeenOrder(prev, s[..n])
    requires keys == prev || (keys == prev + [s[n]] && s[n] !in s[..n])
    ensures FirstSeenOrder(keys, s)
  {
    forall a | 0 <= a < |prev|
      ensures prev[a] in s && FirstIndex(s, prev[a]) == FirstIndex(s[..n], prev[a]) < n
    {
      FirstIndexPrefix(s, n, prev[a]);
    }
    forall a | 0 <= a < |keys| ensures keys[a] in s {
      if a < |prev| { assert keys[a] == prev[a]; }
    }
    forall a, b | 0 <= a < b < |keys|
      ensures FirstIndex(s, keys[a]) < FirstIndex(s, keys[b])
    {
      if b < |prev| {
        assert keys[a] == prev[a] && keys[b] == prev[b];
      } else {
        assert keys[a] == prev[a] && keys[b] == s[n];
        assert FirstIndex(s, keys[b]) == n;
      }
    }
  }

  /** Starting from `{}`, the keys come out in the order in which each first appears among the pairs. */
  lemma {:induction false} PutAllFirstSeenOrder<K, V>(kvs: seq<(K, V)>)
    ensures FirstSeenOrder(PutAll(Empty(), kvs).keys, KeysOf(kvs))
  {
    if kvs != [] {
      var n := |kvs| - 1;
      var p := kvs[..n];
      var e: OrderedMap<K, V> := Empty();
      PutAllFirstSeenOrder(p);
      PutAllKeys(e, p);
      var ks := KeysOf(kvs);
      assert KeysOf(p) == ks[..n];
      var prev := PutAll(e, p).keys;
      assert kvs[n].0 == ks[n];
      FirstSeenOrderExtend(prev, PutAll(e, kvs).keys, ks, n);
    }
  }
}
