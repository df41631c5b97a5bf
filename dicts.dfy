/** Python dictionaries keep their keys in insertion order; the model writes a
    dictionary as a sequence of key/value pairs with distinct keys, and
    assignment follows Python: an existing key keeps its place and takes the
    new value, a new key goes to the end. */
module Dicts {
  import opened Base

  type Dict<K, V> = seq<(K, V)>

  function Keys<K, V>(d: Dict<K, V>): (ks: seq<K>)
    ensures |ks| == |d| && forall i :: 0 <= i < |d| ==> ks[i] == d[i].0
  {
    if d == [] then [] else [d[0].0] + Keys(d[1..])
  }

  predicate UniqueKeys<K(==), V>(d: Dict<K, V>) {
    forall i, j :: 0 <= i < j < |d| ==> d[i].0 != d[j].0
  }

  /** `d.get(k)` */
  function Get<K(==), V>(d: Dict<K, V>, k: K): (r: Option<V>)
    ensures r.None? <==> k !in Keys(d)
  {
    if d == [] then None else if d[0].0 == k then Some(d[0].1) else Get(d[1..], k)
  }

  /** `d[k] = v` */
  function Put<K(==), V>(d: Dict<K, V>, k: K, v: V): (r: Dict<K, V>)
    ensures |r| == if k in Keys(d) then |d| else |d| + 1
  {
    if d == [] then [(k, v)]
    else if d[0].0 == k then [(k, v)] + d[1..]
    else [d[0]] + Put(d[1..], k, v)
  }

  /** After `d[k] = v`, `k` finds `v`, every other key finds what it found
      before, and the keys keep their order with a new key at the end. */
  lemma PutSpec<K(!new), V>(d: Dict<K, V>, k: K, v: V)
    ensures Get(Put(d, k, v), k) == Some(v)
    ensures forall k' :: k' != k ==> Get(Put(d, k, v), k') == Get(d, k')
    ensures Keys(Put(d, k, v)) == if k in Keys(d) then Keys(d) else Keys(d) + [k]
  {
    PutGets(d, k, v);
    PutKeys(d, k, v);
  }

  /** The lookups half of `PutSpec`. */
  lemma {:induction false} PutGets<K(!new), V>(d: Dict<K, V>, k: K, v: V)
    ensures Get(Put(d, k, v), k) == Some(v)
    ensures forall k' :: k' != k ==> Get(Put(d, k, v), k') == Get(d, k')
    decreases |d|
  {
    if d != [] && d[0].0 != k {
      PutGets(d[1..], k, v);
      assert Put(d, k, v)[1..] == Put(d[1..], k, v);
    } else if d != [] {
      assert Put(d, k, v)[1..] == d[1..];
    }
  }

  /** The key-order half of `PutSpec`. */
  lemma {:induction false} PutKeys<K, V>(d: Dict<K, V>, k: K, v: V)
    ensures Keys(Put(d, k, v)) == if k in Keys(d) then Keys(d) else Keys(d) + [k]
    decreases |d|
  {
    if d != [] && d[0].0 != k {
      var t := Put(d[1..], k, v);
      PutKeys(d[1..], k, v);
      var r := [d[0]] + t;
      assert r[1..] == t;
      assert Keys(r) == [d[0].0] + Keys(t);
      assert k in Keys(d) <==> k in Keys(d[1..]);
      if k !in Keys(d) {
        assert [d[0].0] + (Keys(d[1..]) + [k]) == ([d[0].0] + Keys(d[1..])) + [k];
      }
    } else if d != [] {
      assert Put(d, k, v)[1..] == d[1..];
    }
  }

  /** The key order a dictionary gets from assigning `ks` in turn after keys
      `seen`: each key at its first appearance. */
  function AddKeys<K(==)>(seen: seq<K>, ks: seq<K>): seq<K>
    decreases |ks|
  {
    if ks == [] then seen
    else AddKeys(if ks[0] in seen then seen else seen + [ks[0]], ks[1..])
  }

  /** In a dictionary with distinct keys, each key finds its own value. */
  lemma {:induction false} GetAt<K, V>(d: Dict<K, V>, i: nat)
    requires UniqueKeys(d) && i < |d|
    ensures Get(d, d[i].0) == Some(d[i].1)
  {
    if i > 0 {
      GetAt(d[1..], i - 1);
    }
  }

  /** Assignment keeps the keys distinct. */
  lemma {:induction false} PutUnique<K(!new), V>(d: Dict<K, V>, k: K, v: V)
    requires UniqueKeys(d)
    ensures UniqueKeys(Put(d, k, v))
    decreases |d|
  {
    if d != [] && d[0].0 != k {
      PutUnique(d[1..], k, v);
      PutSpec(d[1..], k, v);
      HeadNotInTail(d);
      ConsUnique(d[0], Put(d[1..], k, v));
    }
  }

  /** The first key of a dictionary with distinct keys is not among the
      others. */
  lemma HeadNotInTail<K, V>(d: Dict<K, V>)
    requires UniqueKeys(d) && d != []
    ensures d[0].0 !in Keys(d[1..])
  {
    forall m | 0 <= m < |d| - 1 ensures Keys(d[1..])[m] != d[0].0 {
      assert d[1..][m] == d[m + 1];
    }
  }

  /** A pair whose key is new in front of a dictionary with distinct keys
      keeps them distinct. */
  lemma ConsUnique<K, V>(x: (K, V), d: Dict<K, V>)
    requires UniqueKeys(d) && x.0 !in Keys(d)
    ensures UniqueKeys([x] + d)
  {
    var r := [x] + d;
    forall i, j | 0 <= i < j < |r| ensures r[i].0 != r[j].0 {
      assert r[j] == d[j - 1];
      if i == 0 {
        assert Keys(d)[j - 1] == d[j - 1].0;
      } else {
        assert r[i] == d[i - 1];
      }
    }
  }

  /** `zip(ks, vs)`: pairs up to the shorter of the two. */
  function Zip<K, V>(ks: seq<K>, vs: seq<V>): (r: seq<(K, V)>)
    ensures |r| == if |ks| < |vs| then |ks| else |vs|
    ensures forall i :: 0 <= i < |r| ==> r[i] == (ks[i], vs[i])
  {
    if ks == [] || vs == [] then [] else [(ks[0], vs[0])] + Zip(ks[1..], vs[1..])
  }

  /** `dict(pairs)`: later pairs overwrite earlier ones with the same key. */
  function FromPairs<K(==,!new), V>(pairs: seq<(K, V)>): (r: Dict<K, V>)
    ensures UniqueKeys(r)
  {
    if pairs == [] then []
    else
      var d := FromPairs(pairs[..|pairs| - 1]);
      PutUnique(d, pairs[|pairs| - 1].0, pairs[|pairs| - 1].1);
      Put(d, pairs[|pairs| - 1].0, pairs[|pairs| - 1].1)
  }

  /** Every key of `dict(pairs)` comes from `pairs`, and every key of `pairs`
      is in it, bound to the value of its last pair. */
  lemma {:induction false} FromPairsLast<K(!new), V>(pairs: seq<(K, V)>, i: nat)
    requires i < |pairs|
    requires forall j :: i < j < |pairs| ==> pairs[j].0 != pairs[i].0
    ensures Get(FromPairs(pairs), pairs[i].0) == Some(pairs[i].1)
    decreases |pairs|
  {
    var last := pairs[|pairs| - 1];
    PutSpec(FromPairs(pairs[..|pairs| - 1]), last.0, last.1);
    if i < |pairs| - 1 {
      FromPairsLast(pairs[..|pairs| - 1], i);
    }
  }
}
