/**
 * A Go map modelled as an association list: a sequence of entries with
 * pairwise distinct keys, listed in the order the map is iterated. Go leaves
 * that order unspecified; the model fixes it to first-insertion order, which
 * is one of the orders Go may produce.
 */
module Assoc {
  import opened Wrappers

  type Entries<K(==,!new), V> = seq<(K, V)>

  /** The keys of the map, in iteration order. */
  function Keys<K(==,!new), V>(m: Entries<K, V>): (ks: seq<K>)
    ensures |ks| == |m| && forall i :: 0 <= i < |m| ==> ks[i] == m[i].0
  {
    if m == [] then [] else [m[0].0] + Keys(m[1..])
  }

  /** No key occurs twice: what makes an entry list a map. */
  predicate Distinct<K(==,!new), V>(m: Entries<K, V>) {
    forall i, j :: 0 <= i < j < |m| ==> m[i].0 != m[j].0
  }

  predicate HasKey<K(==,!new), V>(m: Entries<K, V>, k: K) {
    exists i :: 0 <= i < |m| && m[i].0 == k
  }

  /** Map lookup (`m[k]` with the comma-ok form): the first entry with key `k`. */
  function Get<K(==,!new), V>(m: Entries<K, V>, k: K): (r: Option<V>)
    ensures r.None? <==> !HasKey(m, k)
    ensures r.Some? ==> exists i :: 0 <= i < |m| && m[i] == (k, r.value)
  {
    if m == [] then None
    else if m[0].0 == k then Some(m[0].1)
    else
      var r := Get(m[1..], k);
      assert HasKey(m[1..], k) ==> HasKey(m, k) by {
        if HasKey(m[1..], k) { var i :| 0 <= i < |m[1..]| && m[1..][i].0 == k; assert m[i + 1].0 == k; }
      }
      assert r.Some? ==> exists i :: 0 <= i < |m| && m[i] == (k, r.value) by {
        if r.Some? { var i :| 0 <= i < |m[1..]| && m[1..][i] == (k, r.value); assert m[i + 1] == (k, r.value); }
      }
      r
  }

  /**
   * Map assignment `m[k] = v`: an existing entry is overwritten where it
   * stands, a new key is added at the end of the iteration order.
   */
  function Put<K(==,!new), V>(m: Entries<K, V>, k: K, v: V): Entries<K, V>
  {
    if m == [] then [(k, v)]
    else if m[0].0 == k then [(k, v)] + m[1..]
    else [m[0]] + Put(m[1..], k, v)
  }

  /** An existing key is overwritten in place; a new key goes at the end. */
  lemma {:induction false} PutShape<K(!new), V>(m: Entries<K, V>, k: K, v: V)
    ensures HasKey(m, k) ==> |Put(m, k, v)| == |m|
    ensures !HasKey(m, k) ==> Put(m, k, v) == m + [(k, v)]
  {
    if m != [] && m[0].0 != k {
      PutShape(m[1..], k, v);
      assert HasKey(m, k) ==> HasKey(m[1..], k) by {
        if HasKey(m, k) { var i :| 0 <= i < |m| && m[i].0 == k; assert m[1..][i - 1].0 == k; }
      }
      assert !HasKey(m, k) ==> !HasKey(m[1..], k) by {
        if HasKey(m[1..], k) { var i :| 0 <= i < |m[1..]| && m[1..][i].0 == k; assert m[i + 1].0 == k; }
      }
      assert m == [m[0]] + m[1..];
    }
  }

  /** After `m[k] = v`, looking `k` up gives `v`. */
  lemma {:induction false} GetPut<K(!new), V>(m: Entries<K, V>, k: K, v: V)
    ensures Get(Put(m, k, v), k) == Some(v)
  {
    if m != [] && m[0].0 != k {
      GetPut(m[1..], k, v);
    }
  }

  /** `m[k] = v` leaves every other key's lookup unchanged. */
  lemma {:induction false} GetPutOther<K(!new), V>(m: Entries<K, V>, k: K, v: V, k': K)
    requires k' != k
    ensures Get(Put(m, k, v), k') == Get(m, k')
  {
    if m != [] && m[0].0 != k {
      GetPutOther(m[1..], k, v, k');
    }
  }

  /** Assignment keeps the keys pairwise distinct. */
  lemma {:induction false} PutDistinct<K(!new), V>(m: Entries<K, V>, k: K, v: V)
    requires Distinct(m)
    ensures Distinct(Put(m, k, v))
  {
    if m != [] && m[0].0 != k {
      PutDistinct(m[1..], k, v);
      var rest := Put(m[1..], k, v);
      var x := m[0].0;
      forall j | 0 <= j < |m[1..]| ensures m[1..][j].0 != x {
        assert m[1..][j] == m[j + 1];
      }
      GetPutOther(m[1..], k, v, x);
      assert !HasKey(rest, x);
      assert Put(m, k, v) == [m[0]] + rest;
    }
  }

  /** Every key of `m` is still a key after `Put`: assignment never removes. */
  lemma PutKeepsKeys<K(!new), V>(m: Entries<K, V>, k: K, v: V, k': K)
    requires HasKey(m, k')
    ensures HasKey(Put(m, k, v), k')
  {
    if k' != k { GetPutOther(m, k, v, k'); } else { GetPut(m, k, v); }
  }

  /** Assignment adds no entry besides the one assigned. */
  lemma {:induction false} PutEntries<K(!new), V>(m: Entries<K, V>, k: K, v: V)
    ensures forall e :: e in Put(m, k, v) ==> e in m || e == (k, v)
  {
    if m != [] && m[0].0 != k {
      PutEntries(m[1..], k, v);
      assert forall e :: e in m[1..] ==> e in m;
    } else if m != [] {
      assert forall e :: e in m[1..] ==> e in m;
    }
  }
}
