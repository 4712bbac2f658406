/** Python's insertion-ordered `dict`, as a sequence of key/value pairs whose
    keys are distinct. Assigning to a present key keeps its position;
    assigning to a new key appends it. */
module Dicts {
  import opened Wrappers

  type Dict<K, V> = seq<(K, V)>

  predicate DistinctKeys<K(==), V>(d: Dict<K, V>) {
    forall i, j :: 0 <= i < j < |d| ==> d[i].0 != d[j].0
  }

  function Keys<K(==), V>(d: Dict<K, V>): (ks: set<K>)
    ensures forall i :: 0 <= i < |d| ==> d[i].0 in ks
    ensures forall k :: k in ks ==> exists i :: 0 <= i < |d| && d[i].0 == k
  {
    set i | 0 <= i < |d| :: d[i].0
  }

  /** The position of key k, or -1 when k is absent. */
  function IndexOf<K(==), V>(d: Dict<K, V>, k: K): (i: int)
    ensures -1 <= i < |d|
    ensures i >= 0 ==> d[i].0 == k && forall m :: 0 <= m < i ==> d[m].0 != k
    ensures i < 0 <==> k !in Keys(d)
    decreases |d|
  {
    if |d| == 0 then -1
    else if d[0].0 == k then 0
    else
      var j := IndexOf(d[1..], k);
      assert forall m :: 0 < m < |d| ==> d[1..][m - 1] == d[m];
      if j < 0 then -1 else j + 1
  }

  /** With distinct keys, the position holding k is the one IndexOf finds. */
  lemma IndexOfUnique<K, V>(d: Dict<K, V>, j: int)
    requires DistinctKeys(d) && 0 <= j < |d|
    ensures IndexOf(d, d[j].0) == j
  {
  }

  /** `d.get(k)`: the value stored under k, or None. */
  function Get<K(==), V>(d: Dict<K, V>, k: K): (r: Option<V>)
    ensures r.None? <==> k !in Keys(d)
    ensures r.Some? ==> exists i :: 0 <= i < |d| && d[i] == (k, r.value)
  {
    var i := IndexOf(d, k);
    if i < 0 then None else Some(d[i].1)
  }

  /** `d[k] = v` */
  function Put<K(==), V>(d: Dict<K, V>, k: K, v: V): (r: Dict<K, V>)
    ensures k in Keys(d) ==> |r| == |d|
    ensures k !in Keys(d) ==> r == d + [(k, v)]
    ensures forall i :: 0 <= i < |d| ==> r[i].0 == d[i].0
    ensures forall i :: 0 <= i < |d| && d[i].0 != k ==> r[i] == d[i]
    ensures Keys(r) == Keys(d) + {k}
  {
    var i := IndexOf(d, k);
    var r := if i < 0 then d + [(k, v)] else d[i := (k, v)];
    assert r[if i < 0 then |d| else i].0 == k;
    assert forall m :: 0 <= m < |r| ==> r[m].0 in Keys(d) || r[m].0 == k;
    r
  }

  /** Assignment keeps the keys distinct; a lookup then gives the assigned value
      for k and the old value for every other key. */
  lemma GetPut<K, V>(d: Dict<K, V>, k: K, v: V, k2: K)
    requires DistinctKeys(d)
    ensures DistinctKeys(Put(d, k, v))
    ensures Get(Put(d, k, v), k2) == if k2 == k then Some(v) else Get(d, k2)
  {
    var r := Put(d, k, v);
    PutDistinct(d, k, v);
    var j := IndexOf(r, k2);
    if j >= 0 {
      IndexOfUnique(r, j);
      if k2 != k {
        assert r[j] == d[j];
        IndexOfUnique(d, j);
      }
    }
  }

  /** `d[k] = v` keeps the keys distinct. */
  lemma PutDistinct<K, V>(d: Dict<K, V>, k: K, v: V)
    requires DistinctKeys(d)
    ensures DistinctKeys(Put(d, k, v))
  {
    var r := Put(d, k, v);
    forall i, j | 0 <= i < j < |r|
      ensures r[i].0 != r[j].0
    {
      if j < |d| {
        assert r[i].0 == d[i].0 && r[j].0 == d[j].0;
      } else {
        assert r[j].0 == k && r[i].0 == d[i].0;
        assert d[i].0 in Keys(d);
      }
    }
  }

  /** The values of a dict in order (`d.values()`). */
  function Values<K(==), V>(d: Dict<K, V>): (vs: seq<V>)
    ensures |vs| == |d| && forall i :: 0 <= i < |d| ==> vs[i] == d[i].1
  {
    seq(|d|, i requires 0 <= i < |d| => d[i].1)
  }
}
