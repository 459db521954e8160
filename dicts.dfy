/**
 * A Python `dict` with string keys: key-value pairs in insertion order,
 * no key twice. Assigning to a present key replaces its value in place;
 * assigning to a new key appends the pair.
 */
module Dicts {
  import opened Wrappers

  type Dict<V> = seq<(string, V)>

  function Keys<V>(d: Dict<V>): seq<string> {
    seq(|d|, i requires 0 <= i < |d| => d[i].0)
  }

  predicate DistinctKeys<V>(d: Dict<V>) {
    forall i, j :: 0 <= i < j < |d| ==> d[i].0 != d[j].0
  }

  /** `d.get(k)`: the value stored under `k`, if any. */
  function Get<V>(d: Dict<V>, k: string): (r: Option<V>)
    ensures r.Some? <==> k in Keys(d)
    ensures r.Some? ==> (k, r.value) in d
  {
    if d == [] then None
    else if d[0].0 == k then
      assert Keys(d)[0] == k;
      Some(d[0].1)
    else
      KeysCons(d);
      Get(d[1..], k)
  }

  /** `d[k] = v`. */
  function Put<V>(d: Dict<V>, k: string, v: V): (r: Dict<V>)
    ensures Get(r, k) == Some(v)
    ensures forall k' :: k' != k ==> Get(r, k') == Get(d, k')
  {
    if d == [] then [(k, v)]
    else if d[0].0 == k then
      var r := [(k, v)] + d[1..];
      assert r[1..] == d[1..];
      r
    else
      var rest := Put(d[1..], k, v);
      var r := [d[0]] + rest;
      assert r[1..] == rest;
      r
  }

  /** Assigning to a present key keeps the key order; a new key goes last. */
  lemma {:induction false} PutKeys<V>(d: Dict<V>, k: string, v: V)
    ensures k in Keys(d) ==> Keys(Put(d, k, v)) == Keys(d)
    ensures k !in Keys(d) ==> Keys(Put(d, k, v)) == Keys(d) + [k]
  {
    if d != [] {
      KeysCons(d);
      if d[0].0 == k {
        KeysCons(Put(d, k, v));
        assert Put(d, k, v)[1..] == d[1..];
      } else {
        var rest := Put(d[1..], k, v);
        PutKeys(d[1..], k, v);
        assert Put(d, k, v) == [d[0]] + rest;
        KeysCons([d[0]] + rest);
        assert ([d[0]] + rest)[1..] == rest;
      }
    }
  }

  lemma KeysCons<V>(d: Dict<V>)
    requires d != []
    ensures Keys(d) == [d[0].0] + Keys(d[1..])
  {
  }

  /** Assignment never introduces a second copy of a key. */
  lemma PutKeepsKeysDistinct<V>(d: Dict<V>, k: string, v: V)
    requires DistinctKeys(d)
    ensures DistinctKeys(Put(d, k, v))
  {
    var r := Put(d, k, v);
    PutKeys(d, k, v);
    assert Keys(r) == Keys(d) || Keys(r) == Keys(d) + [k];
    forall i, j | 0 <= i < j < |r| ensures r[i].0 != r[j].0 {
      assert Keys(r)[i] == r[i].0 && Keys(r)[j] == r[j].0;
      if Keys(r) != Keys(d) {
        assert Keys(r) == Keys(d) + [k];
        if j == |d| {
          assert Keys(d)[i] == d[i].0;
          assert d[i].0 in Keys(d);
        } else {
          assert Keys(d)[i] == d[i].0 && Keys(d)[j] == d[j].0;
        }
      } else {
        assert Keys(d)[i] == d[i].0 && Keys(d)[j] == d[j].0;
      }
    }
  }
}
