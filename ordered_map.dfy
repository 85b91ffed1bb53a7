/**
 * A JavaScript object used as a dictionary with string keys: assigning to a new
 * key adds it last, assigning to an existing key keeps its position, and
 * `Object.keys` lists the keys in that order.
 */
module OrderedMap {
  import opened Wrappers

  datatype Entry<V> = Entry(key: string, val: V)

  /** No key occurs twice. */
  predicate DistinctKeys<V>(s: seq<Entry<V>>) {
    forall i, j :: 0 <= i < j < |s| ==> s[i].key != s[j].key
  }

  /** Position of `k`, or -1. */
  function Find<V>(s: seq<Entry<V>>, k: string): (r: int)
    ensures -1 <= r < |s|
    ensures r >= 0 ==> s[r].key == k
    ensures forall j :: 0 <= j < |s| && (r < 0 || j < r) ==> s[j].key != k
  {
    if s == [] then -1
    else if s[0].key == k then 0
    else
      var r := Find(s[1..], k);
      assert forall j :: 1 <= j < |s| ==> s[j] == s[1..][j - 1];
      if r < 0 then -1 else r + 1
  }

  /** `obj[k]`: the value stored under `k`, if any. */
  function Get<V>(s: seq<Entry<V>>, k: string): (r: Option<V>)
    ensures r.None? <==> forall j :: 0 <= j < |s| ==> s[j].key != k
    ensures r.Some? ==> Entry(k, r.value) in s
  {
    var i := Find(s, k);
    if i < 0 then None else Some(s[i].val)
  }

  /** `obj[k] = v` */
  function Put<V>(s: seq<Entry<V>>, k: string, v: V): (r: seq<Entry<V>>)
    ensures Find(s, k) >= 0 ==> |r| == |s|
    ensures Find(s, k) < 0 ==> |r| == |s| + 1 && r[|s|] == Entry(k, v)
    ensures forall i :: 0 <= i < |s| ==> r[i].key == s[i].key
    ensures forall i :: 0 <= i < |s| && s[i].key != k ==> r[i] == s[i]
  {
    var i := Find(s, k);
    if i >= 0 then s[i := Entry(k, v)] else s + [Entry(k, v)]
  }

  /** Two lists with the same keys in the same places find every key in the same place. */
  lemma {:induction false} FindSameKeys<V>(s: seq<Entry<V>>, t: seq<Entry<V>>, k: string)
    requires |s| <= |t| && forall i :: 0 <= i < |s| ==> s[i].key == t[i].key
    requires forall i :: |s| <= i < |t| ==> t[i].key != k
    ensures Find(t, k) == Find(s, k)
  {
    var a := Find(s, k);
    if a >= 0 {
      assert t[a].key == k;
    }
  }

  /** After `obj[k] = v`, reading `k` gives `v` and every other key reads as before. */
  lemma PutGet<V>(s: seq<Entry<V>>, k: string, v: V, k': string)
    ensures Get(Put(s, k, v), k) == Some(v)
    ensures k' != k ==> Get(Put(s, k, v), k') == Get(s, k')
  {
    var r := Put(s, k, v);
    if Find(s, k) >= 0 { FindSameKeys(s, r, k); }
    if k' != k { FindSameKeys(s, r, k'); }
  }

  /** Assignment never creates a second entry for a key. */
  lemma PutKeepsKeysDistinct<V>(s: seq<Entry<V>>, k: string, v: V)
    requires DistinctKeys(s)
    ensures DistinctKeys(Put(s, k, v))
  {
  }

  /** `obj[k].push(x)` on a list-valued entry; an absent key leaves the object alone. */
  function Push<X>(s: seq<Entry<seq<X>>>, k: string, x: X): (r: seq<Entry<seq<X>>>)
    ensures Get(s, k).Some? ==> r == Put(s, k, Get(s, k).value + [x])
    ensures Get(s, k).None? ==> r == s
  {
    match Get(s, k)
    case None => s
    case Some(xs) => Put(s, k, xs + [x])
  }
}
