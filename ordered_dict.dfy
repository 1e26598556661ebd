/** Python dictionaries remember insertion order, and the plotter relies on it
    when it turns `data_new` into a list. A dictionary is modelled as a list of
    key/value pairs in insertion order. */
module OrderedDict {
  import opened Common

  /** The keys, in insertion order. */
  function Keys<K, V>(d: seq<(K, V)>): (ks: seq<K>)
    ensures |ks| == |d|
    ensures forall i :: 0 <= i < |d| ==> ks[i] == d[i].0
  {
    seq(|d|, i requires 0 <= i < |d| => d[i].0)
  }

  /** `list(d.values())`. */
  function Values<K, V>(d: seq<(K, V)>): (vs: seq<V>)
    ensures |vs| == |d|
    ensures forall i :: 0 <= i < |d| ==> vs[i] == d[i].1
  {
    seq(|d|, i requires 0 <= i < |d| => d[i].1)
  }

  /** A real dictionary never holds a key twice. */
  predicate DistinctKeys<K(==), V>(d: seq<(K, V)>) {
    forall i, j :: 0 <= i < j < |d| ==> d[i].0 != d[j].0
  }

  /** `d.get(k)`. */
  function Lookup<K(==), V>(d: seq<(K, V)>, k: K): Option<V> {
    if |d| == 0 then None
    else if d[0].0 == k then Some(d[0].1)
    else Lookup(d[1..], k)
  }

  /** A key is found iff it is among the keys, and then with a value stored
      under it. */
  lemma {:induction false} LookupMeaning<K, V>(d: seq<(K, V)>, k: K)
    ensures Lookup(d, k).None? <==> k !in Keys(d)
    ensures Lookup(d, k).Some? ==> (k, Lookup(d, k).value) in d
  {
    if |d| > 0 {
      KeysCons(d);
      if d[0].0 == k {
        assert Keys(d)[0] == k && d[0] == (k, d[0].1);
      } else {
        var rest := d[1..];
        LookupMeaning(rest, k);
        assert Lookup(d, k) == Lookup(rest, k);
        assert k in Keys(d) <==> k in Keys(rest);
        assert d == [d[0]] + rest;
      }
    }
  }

  /** `d[k] = v`. */
  function Put<K(==), V>(d: seq<(K, V)>, k: K, v: V): (r: seq<(K, V)>)
    ensures |r| >= |d|
  {
    if |d| == 0 then [(k, v)]
    else if d[0].0 == k then [(k, v)] + d[1..]
    else [d[0]] + Put(d[1..], k, v)
  }

  lemma KeysCons<K, V>(d: seq<(K, V)>)
    requires |d| > 0
    ensures Keys(d) == [d[0].0] + Keys(d[1..])
  {
  }

  /** A new key goes at the end. */
  lemma {:induction false} PutNewKey<K, V>(d: seq<(K, V)>, k: K, v: V)
    requires k !in Keys(d)
    ensures Put(d, k, v) == d + [(k, v)]
  {
    if |d| > 0 {
      KeysCons(d);
      PutNewKey(d[1..], k, v);
      assert d == [d[0]] + d[1..];
    }
  }

  /** An existing key keeps its place; a new key goes at the end. */
  lemma {:induction false} PutKeys<K, V>(d: seq<(K, V)>, k: K, v: V)
    ensures Keys(Put(d, k, v)) == if k in Keys(d) then Keys(d) else Keys(d) + [k]
  {
    if |d| > 0 {
      KeysCons(d);
      var r := Put(d, k, v);
      KeysCons(r);
      if d[0].0 != k {
        PutKeys(d[1..], k, v);
        assert r[1..] == Put(d[1..], k, v);
      }
    }
  }

  /** After `d[k] = v`, `k` reads `v` and every other key reads what it did. */
  lemma {:induction false} PutLookup<K, V>(d: seq<(K, V)>, k: K, v: V, other: K)
    ensures Lookup(Put(d, k, v), k) == Some(v)
    ensures other != k ==> Lookup(Put(d, k, v), other) == Lookup(d, other)
  {
    if |d| > 0 && d[0].0 != k {
      PutLookup(d[1..], k, v, other);
      assert Put(d, k, v)[1..] == Put(d[1..], k, v);
    }
  }

  /** Assignment keeps the keys distinct. */
  lemma PutKeepsDistinct<K, V>(d: seq<(K, V)>, k: K, v: V)
    requires DistinctKeys(d)
    ensures DistinctKeys(Put(d, k, v))
  {
    var r := Put(d, k, v);
    PutKeys(d, k, v);
    if k !in Keys(d) {
      PutNewKey(d, k, v);
    }
    forall i, j | 0 <= i < j < |r| ensures r[i].0 != r[j].0 {
      assert Keys(r)[i] == r[i].0 && Keys(r)[j] == r[j].0;
      if j < |d| {
        assert Keys(d)[i] == d[i].0 && Keys(d)[j] == d[j].0;
      } else {
        assert r[j].0 == k && k !in Keys(d);
        assert Keys(d)[i] == r[i].0;
      }
    }
  }
}
