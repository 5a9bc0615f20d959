/** Python's insertion-ordered `dict`, as a sequence of key/value pairs: a new
    key goes to the end, assigning to an existing key keeps its position. */
module Assoc {

  import opened Wrappers

  /** The keys in insertion order. */
  function Keys<K, V>(t: seq<(K, V)>): (ks: seq<K>)
    ensures |ks| == |t|
    ensures forall i :: 0 <= i < |t| ==> ks[i] == t[i].0
  {
    seq(|t|, i requires 0 <= i < |t| => t[i].0)
  }

  /** No key appears twice. */
  predicate Distinct<K(==)>(ks: seq<K>) {
    forall i, j :: 0 <= i < j < |ks| ==> ks[i] != ks[j]
  }

  /** Where key `k` sits: its first position. */
  function Position<K(==), V>(t: seq<(K, V)>, k: K): (i: nat)
    requires k in Keys(t)
    ensures i < |t| && t[i].0 == k
    ensures forall j :: 0 <= j < i ==> t[j].0 != k
  {
    if t[0].0 == k then 0
    else
      assert Keys(t) == [t[0].0] + Keys(t[1..]);
      1 + Position(t[1..], k)
  }

  /** The first position of a key is the only position with that property. */
  lemma PositionUnique<K, V>(t: seq<(K, V)>, k: K, i: nat)
    requires i < |t| && t[i].0 == k
    requires forall j :: 0 <= j < i ==> t[j].0 != k
    ensures k in Keys(t) && Position(t, k) == i
  {
    assert Keys(t)[i] == k;
  }

  /** `d.get(k)`: the value stored under `k`, if any. */
  function Lookup<K(==), V>(t: seq<(K, V)>, k: K): (r: Option<V>)
    ensures r.None? <==> k !in Keys(t)
    ensures r.Some? ==> (k, r.value) in t
  {
    if k in Keys(t) then Some(t[Position(t, k)].1) else None
  }

  /** `d[k] = v`: the key keeps its place if present and goes last if not. */
  function Put<K(==), V>(t: seq<(K, V)>, k: K, v: V): (r: seq<(K, V)>)
    ensures Keys(r) == if k in Keys(t) then Keys(t) else Keys(t) + [k]
  {
    if k in Keys(t) then
      var r := t[Position(t, k) := (k, v)];
      assert Keys(r) == Keys(t);
      r
    else
      var r := t + [(k, v)];
      assert Keys(r) == Keys(t) + [k];
      r
  }

  /** After `d[k] = v`, `d.get(k)` is `v` and every other key reads as before. */
  lemma LookupPut<K, V>(t: seq<(K, V)>, k: K, v: V, k': K)
    ensures Lookup(Put(t, k, v), k') == if k' == k then Some(v) else Lookup(t, k')
  {
    var r := Put(t, k, v);
    if k in Keys(t) {
      var i := Position(t, k);
      if k' == k {
        PositionUnique(r, k, i);
      } else if k' in Keys(t) {
        var p := Position(t, k');
        PositionUnique(r, k', p);
      }
    } else {
      if k' == k {
        PositionUnique(r, k, |t|);
      } else if k' in Keys(t) {
        var p := Position(t, k');
        PositionUnique(r, k', p);
      } else {
        assert k' !in Keys(r);
      }
    }
  }

  /** Assignment never makes a key appear twice. */
  lemma PutDistinct<K, V>(t: seq<(K, V)>, k: K, v: V)
    requires Distinct(Keys(t))
    ensures Distinct(Keys(Put(t, k, v)))
  {
  }
}
