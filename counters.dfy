/** Python's `defaultdict(int)` as a map whose missing keys read as 0, with
    the `+=` update and the key-by-key merge the metric folds use. */
module Counters {

  /** `d[k]` on a `defaultdict(int)`: 0 for a key never written. */
  function Count<K>(m: map<K, int>, k: K): int {
    if k in m then m[k] else 0
  }

  /** `d[k] += v`: the key is created if missing, no other key changes. */
  function Add<K(!new)>(m: map<K, int>, k: K, v: int): (r: map<K, int>)
    ensures r.Keys == m.Keys + {k}
    ensures Count(r, k) == Count(m, k) + v
    ensures forall j :: j != k ==> Count(r, j) == Count(m, j)
  {
    m[k := Count(m, k) + v]
  }

  /** The sum of all values (`sum(d.values())`). */
  ghost function Total<K>(m: map<K, int>): int
    decreases |m.Keys|
  {
    if m.Keys == {} then 0
    else
      var k :| k in m.Keys;
      assert (m - {k}).Keys < m.Keys;
      m[k] + Total(m - {k})
  }

  /** Any key can be taken out first. */
  lemma {:induction false} TotalRemove<K>(m: map<K, int>, k: K)
    requires k in m
    ensures Total(m) == m[k] + Total(m - {k})
    decreases |m.Keys|
  {
    var j :| j in m.Keys && Total(m) == m[j] + Total(m - {j});
    if j != k {
      var mj := m - {j};
      var mk := m - {k};
      assert mj.Keys < m.Keys && mk.Keys < m.Keys;
      TotalRemove(mj, k);
      TotalRemove(mk, j);
      assert mj - {k} == mk - {j};
    }
  }

  /** `d[k] += v` adds v to the sum of the values. */
  lemma TotalAdd<K(!new)>(m: map<K, int>, k: K, v: int)
    ensures Total(Add(m, k, v)) == Total(m) + v
  {
    var r := Add(m, k, v);
    TotalRemove(r, k);
    assert r - {k} == m - {k};
    if k in m {
      TotalRemove(m, k);
    } else {
      assert m - {k} == m;
    }
  }

  /** Two counters added key by key: the keys of either, each value the sum. */
  function Merge<K(!new)>(a: map<K, int>, b: map<K, int>): (r: map<K, int>)
    ensures r.Keys == a.Keys + b.Keys
    ensures forall k :: Count(r, k) == Count(a, k) + Count(b, k)
  {
    map k | k in a.Keys + b.Keys :: Count(a, k) + Count(b, k)
  }

  /** `d[k]` on a `defaultdict(float)`: 0.0 for a key never written. */
  function CountR<K>(m: map<K, real>, k: K): real {
    if k in m then m[k] else 0.0
  }

  /** `d[k] += v` on a `defaultdict(float)`. */
  function AddR<K(!new)>(m: map<K, real>, k: K, v: real): (r: map<K, real>)
    ensures r.Keys == m.Keys + {k}
    ensures CountR(r, k) == CountR(m, k) + v
    ensures forall j :: j != k ==> CountR(r, j) == CountR(m, j)
  {
    m[k := CountR(m, k) + v]
  }

  /** Two float counters added key by key. */
  function MergeR<K(!new)>(a: map<K, real>, b: map<K, real>): (r: map<K, real>)
    ensures r.Keys == a.Keys + b.Keys
    ensures forall k :: CountR(r, k) == CountR(a, k) + CountR(b, k)
  {
    map k | k in a.Keys + b.Keys :: CountR(a, k) + CountR(b, k)
  }
}
