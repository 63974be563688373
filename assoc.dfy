/**
 * A Python dict as the scripts use it: pairs in insertion order. Assigning to a
 * key that is present replaces its value where it stands; a new key goes last.
 */
module Assoc {
  import opened Wrappers

  type Assoc<K, V> = seq<(K, V)>

  function Keys<K, V>(m: Assoc<K, V>): (ks: seq<K>)
    ensures |ks| == |m| && forall i :: 0 <= i < |m| ==> ks[i] == m[i].0
  {
    seq(|m|, i requires 0 <= i < |m| => m[i].0)
  }

  predicate Distinct<K(==)>(ks: seq<K>)
  {
    forall i, j :: 0 <= i < j < |ks| ==> ks[i] != ks[j]
  }

  /** No key occurs twice, as in a dict. */
  predicate Valid<K(==), V>(m: Assoc<K, V>)
  {
    Distinct(Keys(m))
  }

  /** The position of the first occurrence of k. */
  function IndexOf<K(==), V>(m: Assoc<K, V>, k: K): (r: Option<nat>)
    ensures r.Some? ==> r.value < |m| && m[r.value].0 == k
    ensures r.Some? ==> forall j :: 0 <= j < r.value ==> m[j].0 != k
    ensures r.None? ==> forall j :: 0 <= j < |m| ==> m[j].0 != k
  {
    if m == [] then None
    else if m[0].0 == k then Some(0)
    else match IndexOf(m[1..], k)
      case None => None
      case Some(i) => Some(i + 1)
  }

  /** `d.get(k)`. */
  function Get<K(==), V>(m: Assoc<K, V>, k: K): (r: Option<V>)
    ensures r.Some? <==> k in Keys(m)
    ensures forall i :: 0 <= i < |m| && m[i].0 == k && (forall j :: 0 <= j < i ==> m[j].0 != k) ==> r == Some(m[i].1)
  {
    match IndexOf(m, k)
    case None => None
    case Some(i) => Some(m[i].1)
  }

  /** The value under k, or the empty sequence when k is absent. */
  function GetOr<K(==), V>(m: Assoc<K, seq<V>>, k: K): seq<V>
  {
    match Get(m, k)
    case None => []
    case Some(v) => v
  }

  lemma GetValid<K, V>(m: Assoc<K, V>, i: nat)
    requires Valid(m) && i < |m|
    ensures Get(m, m[i].0) == Some(m[i].1)
  {
  }

  lemma AppendKeepsGet<K, V>(m: Assoc<K, V>, p: (K, V))
    ensures forall k :: k in Keys(m) ==> Get(m + [p], k) == Get(m, k)
  {
    forall k | k in Keys(m)
      ensures Get(m + [p], k) == Get(m, k)
    {
      var i := IndexOf(m, k).value;
      assert (m + [p])[i] == m[i];
    }
  }

  /** `d[k] = v`. */
  function Put<K(==), V>(m: Assoc<K, V>, k: K, v: V): (r: Assoc<K, V>)
    ensures |r| == |m| || |r| == |m| + 1
    ensures Valid(m) ==> Valid(r)
    ensures k in Keys(m) ==> Keys(r) == Keys(m)
    ensures k !in Keys(m) ==> Keys(r) == Keys(m) + [k]
    ensures Valid(m) ==> Get(r, k) == Some(v)
    ensures forall k' :: k' in Keys(m) && k' != k ==> Get(r, k') == Get(m, k')
  {
    match IndexOf(m, k)
    case None => AppendKeepsGet(m, (k, v)); m + [(k, v)]
    case Some(i) => m[i := (k, v)]
  }

  /** The value of the last pair with key k: what a dict holds after assigning the pairs in order. */
  function LastValue<K(==), V>(ps: seq<(K, V)>, k: K): (r: Option<V>)
    ensures r.Some? <==> k in Keys(ps)
  {
    if ps == [] then None
    else if ps[|ps| - 1].0 == k then Some(ps[|ps| - 1].1)
    else
      assert forall j :: 0 <= j < |ps| - 1 ==> Keys(ps)[j] == Keys(ps[..|ps| - 1])[j];
      LastValue(ps[..|ps| - 1], k)
  }

  /** The keys of the pairs, each once, in the order of their first occurrence. */
  function FirstKeys<K(==,!new), V>(ps: seq<(K, V)>): (ks: seq<K>)
    ensures Distinct(ks)
    ensures forall k :: k in ks <==> k in Keys(ps)
  {
    if ps == [] then []
    else
      var front := FirstKeys(ps[..|ps| - 1]);
      var k := ps[|ps| - 1].0;
      assert forall j :: 0 <= j < |ps| - 1 ==> Keys(ps)[j] == Keys(ps[..|ps| - 1])[j];
      assert forall x :: x in Keys(ps) <==> x in Keys(ps[..|ps| - 1]) || x == k;
      if k in front then front else front + [k]
  }

  /**
   * m is the dict that assigning the pairs ps in order builds: its keys in the
   * order they were first assigned, each holding the value assigned last.
   */
  ghost predicate Holds<K(!new), V>(m: Assoc<K, V>, ps: seq<(K, V)>)
  {
    Valid(m) && Keys(m) == FirstKeys(ps) && forall k :: Get(m, k) == LastValue(ps, k)
  }

  /** `d[k] = v` keeps the dict in step with the assignments made so far. */
  lemma PutHolds<K(!new), V>(m: Assoc<K, V>, ps: seq<(K, V)>, k: K, v: V)
    requires Holds(m, ps)
    ensures Holds(Put(m, k, v), ps + [(k, v)])
  {
    var r, qs := Put(m, k, v), ps + [(k, v)];
    assert qs[..|qs| - 1] == ps;
    forall k' ensures Get(r, k') == LastValue(qs, k') {
      assert qs[..|qs| - 1] == ps;
      if k' != k && k' !in Keys(m) {
        assert k' !in Keys(r);
      }
    }
  }

  /** The last pair with a key decides its value. */
  lemma {:induction false} LastValueAt<K, V>(ps: seq<(K, V)>, i: int)
    requires 0 <= i < |ps| && forall j :: i < j < |ps| ==> ps[j].0 != ps[i].0
    ensures LastValue(ps, ps[i].0) == Some(ps[i].1)
  {
    if i < |ps| - 1 {
      LastValueAt(ps[..|ps| - 1], i);
    }
  }

  /** Lookup depends only on the keys' order. */
  lemma {:induction false} IndexOfKeys<K, V, W>(m: Assoc<K, V>, n: Assoc<K, W>, k: K)
    requires Keys(m) == Keys(n)
    ensures IndexOf(m, k) == IndexOf(n, k)
  {
    if m != [] && m[0].0 != k {
      assert Keys(m[1..]) == Keys(m)[1..] && Keys(n[1..]) == Keys(n)[1..];
      IndexOfKeys(m[1..], n[1..], k);
    }
  }
}
