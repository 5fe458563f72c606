/** A Python `dict` as the code uses it: an association list whose keys are
    distinct and kept in insertion order; assigning to a key already present
    replaces its value in place, a new key goes to the end. */
module PyDict {
  import opened Wrappers

  type Dict<K, V> = seq<(K, V)>

  ghost predicate DistinctKeys<K, V>(d: Dict<K, V>)
  {
    forall i, j :: 0 <= i < j < |d| ==> d[i].0 != d[j].0
  }

  /** The position of key `k`, or `|d|` when `k` is not a key. */
  function Find<K(==), V>(d: Dict<K, V>, k: K): (i: nat)
    ensures i <= |d|
    ensures forall j :: 0 <= j < i ==> d[j].0 != k
    ensures i < |d| ==> d[i].0 == k
  {
    if d == [] then 0
    else if d[0].0 == k then 0
    else 1 + Find(d[1..], k)
  }

  /** With distinct keys, every entry is found at its own position. */
  lemma FindAt<K, V>(d: Dict<K, V>, i: nat)
    requires DistinctKeys(d) && i < |d|
    ensures Find(d, d[i].0) == i
  {
  }

  /** `list(d.keys())`. */
  function Keys<K, V>(d: Dict<K, V>): (ks: seq<K>)
    ensures |ks| == |d|
    ensures forall i :: 0 <= i < |d| ==> ks[i] == d[i].0
  {
    seq(|d|, i requires 0 <= i < |d| => d[i].0)
  }

  /** `d.get(k)`: the value at the key's position, None for a missing key. */
  function Get<K(==), V>(d: Dict<K, V>, k: K): (r: Option<V>)
    ensures r.None? <==> Find(d, k) == |d|
    ensures r.Some? ==> r.value == d[Find(d, k)].1
  {
    var i := Find(d, k);
    if i < |d| then Some(d[i].1) else None
  }

  /** `d[k] = v`: an existing key keeps its place and takes the new value, a
      new key is added at the end; the keys stay distinct. */
  function Put<K(==), V>(d: Dict<K, V>, k: K, v: V): (r: Dict<K, V>)
    requires DistinctKeys(d)
    ensures DistinctKeys(r)
    ensures Find(d, k) < |d| ==> r == d[Find(d, k) := (k, v)]
    ensures Find(d, k) == |d| ==> r == d + [(k, v)]
  {
    var i := Find(d, k);
    if i < |d| then d[i := (k, v)] else d + [(k, v)]
  }

  /** After `d[k] = v`, `d.get(k)` is `v` and every other key reads as before. */
  lemma {:induction false} GetPut<K, V>(d: Dict<K, V>, k: K, v: V, k': K)
    requires DistinctKeys(d)
    ensures Get(Put(d, k, v), k') == if k' == k then Some(v) else Get(d, k')
  {
    var r := Put(d, k, v);
    var i := Find(d, k);
    if k' == k {
      if i < |d| { FindAt(r, i); } else { FindAt(r, |d|); }
    } else {
      var j := Find(d, k');
      if j < |d| {
        FindAt(r, j);
      } else {
        assert forall m :: 0 <= m < |r| ==> r[m].0 != k';
      }
    }
  }
}
