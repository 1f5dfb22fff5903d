/**
 * The two map-literal parsers shared by all providers (common.go):
 * `convertMap` reads a flat list `k1, v1, k2, v2, ...` and `explodeMap`
 * reads `k=v` items. Both build a `map[string]interface{}` of strings; a
 * later duplicate key overwrites an earlier one. `convertArray` copies a
 * list of strings into a `[]interface{}`.
 */
module Pairs {
  import opened Wrappers
  import opened Strings
  import opened Assoc
  import opened Errors

  /** Assigns each pair in turn: `m[k] = v` for every `(k, v)` of `xs`, first to last. */
  function PutAll(acc: Entries<string, string>, xs: seq<(string, string)>): Entries<string, string>
    decreases |xs|
  {
    if xs == [] then acc else Put(PutAll(acc, xs[..|xs| - 1]), xs[|xs| - 1].0, xs[|xs| - 1].1)
  }

  /** Looking up a key that no pair assigns finds what was there before. */
  lemma {:induction false} PutAllGetOther(acc: Entries<string, string>, xs: seq<(string, string)>, k: string)
    requires forall j :: 0 <= j < |xs| ==> xs[j].0 != k
    ensures Get(PutAll(acc, xs), k) == Get(acc, k)
    decreases |xs|
  {
    if xs != [] {
      var n := |xs| - 1;
      PutAllGetOther(acc, xs[..n], k);
      GetPutOther(PutAll(acc, xs[..n]), xs[n].0, xs[n].1, k);
    }
  }

  /** Looking up a key finds the value of the last pair that assigns it. */
  lemma {:induction false} PutAllGetLast(acc: Entries<string, string>, xs: seq<(string, string)>, k: string, j: nat)
    requires j < |xs| && xs[j].0 == k
    requires forall j' :: j < j' < |xs| ==> xs[j'].0 != k
    ensures Get(PutAll(acc, xs), k) == Some(xs[j].1)
    decreases |xs|
  {
    var n := |xs| - 1;
    assert PutAll(acc, xs) == Put(PutAll(acc, xs[..n]), xs[n].0, xs[n].1);
    if j == n {
      GetPut(PutAll(acc, xs[..n]), k, xs[n].1);
    } else {
      assert xs[..n][j] == xs[j];
      assert forall j' :: j < j' < n ==> xs[..n][j'].0 != k;
      PutAllGetLast(acc, xs[..n], k, j);
      GetPutOther(PutAll(acc, xs[..n]), xs[n].0, xs[n].1, k);
    }
  }

  /** Assigning pairs into a map with distinct keys keeps them distinct. */
  lemma {:induction false} PutAllDistinct(acc: Entries<string, string>, xs: seq<(string, string)>)
    requires Distinct(acc)
    ensures Distinct(PutAll(acc, xs))
    decreases |xs|
  {
    if xs != [] {
      PutAllDistinct(acc, xs[..|xs| - 1]);
      PutDistinct(PutAll(acc, xs[..|xs| - 1]), xs[|xs| - 1].0, xs[|xs| - 1].1);
    }
  }

  /**
   * Assigning a list of pairs into an empty map binds exactly the keys of the
   * pairs, each to the value of its last pair, with no duplicate keys.
   */
  lemma PutAllSpec(xs: seq<(string, string)>)
    ensures Distinct(PutAll([], xs))
    ensures forall k :: HasKey(PutAll([], xs), k) <==> exists j :: 0 <= j < |xs| && xs[j].0 == k
    ensures forall j :: (0 <= j < |xs| && forall j' :: j < j' < |xs| ==> xs[j'].0 != xs[j].0) ==>
      Get(PutAll([], xs), xs[j].0) == Some(xs[j].1)
  {
    PutAllDistinct([], xs);
    forall k ensures HasKey(PutAll([], xs), k) <==> exists j :: 0 <= j < |xs| && xs[j].0 == k {
      if exists j :: 0 <= j < |xs| && xs[j].0 == k {
        var j := LastIndex(xs, k);
        PutAllGetLast([], xs, k, j);
      } else {
        PutAllGetOther([], xs, k);
      }
    }
    forall j | 0 <= j < |xs| && forall j' :: j < j' < |xs| ==> xs[j'].0 != xs[j].0
      ensures Get(PutAll([], xs), xs[j].0) == Some(xs[j].1)
    {
      PutAllGetLast([], xs, xs[j].0, j);
    }
  }

  /** The last pair of `xs` with key `k`, when there is one. */
  lemma LastIndex(xs: seq<(string, string)>, k: string) returns (j: nat)
    requires exists i :: 0 <= i < |xs| && xs[i].0 == k
    ensures j < |xs| && xs[j].0 == k && forall j' :: j < j' < |xs| ==> xs[j'].0 != k
    decreases |xs|
  {
    var n := |xs| - 1;
    if xs[n].0 == k {
      j := n;
    } else {
      assert exists i :: 0 <= i < n && xs[..n][i].0 == k by {
        var i :| 0 <= i < |xs| && xs[i].0 == k;
        assert i < n && xs[..n][i] == xs[i];
      }
      j := LastIndex(xs[..n], k);
      assert xs[..n][j] == xs[j];
    }
  }

  // ---------------------------------------------------------------------
  // convertMap

  /** The pairs of a flat list read two at a time. */
  function PairsOf(parts: seq<string>): (r: seq<(string, string)>)
    ensures |r| == |parts| / 2
    ensures forall i :: 0 <= i < |r| ==> r[i] == (parts[2 * i], parts[2 * i + 1])
  {
    seq(|parts| / 2, i requires 0 <= i < |parts| / 2 => (parts[2 * i], parts[2 * i + 1]))
  }

  /** Some key position (an even index) holds the empty string. */
  predicate HasEmptyKey(parts: seq<string>) {
    exists i :: 0 <= i < |parts| / 2 && parts[2 * i] == ""
  }

  /**
   * `convertMap`: an odd number of parts, or an empty key, is an invalid
   * object; otherwise each key is bound to the part that follows it.
   */
  function ConvertMap(parts: seq<string>): (r: Result<Entries<string, string>, Error>)
    ensures r.Err? ==> r.error == InvalidObject(parts)
    ensures r.Ok? <==> |parts| % 2 == 0 && !HasEmptyKey(parts)
  {
    if |parts| % 2 != 0 || HasEmptyKey(parts) then Err(InvalidObject(parts))
    else Ok(PutAll([], PairsOf(parts)))
  }

  /** `convertMap` as the source writes it: a loop over odd indexes that stops at the first empty key. */
  method ParseConvertMap(parts: seq<string>) returns (r: Result<Entries<string, string>, Error>)
    ensures r == ConvertMap(parts)
  {
    var count := |parts|;
    if count % 2 != 0 {
      return Err(InvalidObject(parts));
    }
    ghost var xs := PairsOf(parts);
    var result: Entries<string, string> := [];
    var index := 1;
    ghost var pairs := 0;
    while index < count
      invariant index == 2 * pairs + 1 && pairs <= |xs|
      invariant forall i :: 0 <= i < pairs ==> parts[2 * i] != ""
      invariant result == PutAll([], xs[..pairs])
    {
      var key, value := parts[index - 1], parts[index];
      assert xs[pairs] == (key, value);
      if key == "" {
        assert parts[2 * pairs] == "";
        return Err(InvalidObject(parts));
      }
      assert xs[..pairs + 1] == xs[..pairs] + [(key, value)];
      assert (xs[..pairs] + [(key, value)])[..pairs] == xs[..pairs];
      result := Put(result, key, value);
      index := index + 2;
      pairs := pairs + 1;
    }
    assert pairs == |xs| && xs[..pairs] == xs;
    return Ok(result);
  }

  /**
   * A successful `convertMap` binds exactly the keys of the list, each to the
   * value after its last occurrence, and has no duplicate keys.
   */
  lemma ConvertMapSpec(parts: seq<string>)
    requires ConvertMap(parts).Ok?
    ensures Distinct(ConvertMap(parts).value)
    ensures forall i :: (0 <= i < |parts| / 2 && forall i' :: i < i' < |parts| / 2 ==> parts[2 * i'] != parts[2 * i]) ==>
      Get(ConvertMap(parts).value, parts[2 * i]) == Some(parts[2 * i + 1])
    ensures forall k :: HasKey(ConvertMap(parts).value, k) <==> exists i :: 0 <= i < |parts| / 2 && parts[2 * i] == k
  {
    var xs := PairsOf(parts);
    PutAllSpec(xs);
    forall k ensures HasKey(ConvertMap(parts).value, k) <==> exists i :: 0 <= i < |parts| / 2 && parts[2 * i] == k {
      if exists i :: 0 <= i < |parts| / 2 && parts[2 * i] == k {
        var i :| 0 <= i < |parts| / 2 && parts[2 * i] == k;
        assert xs[i].0 == k;
      }
    }
  }

  // ---------------------------------------------------------------------
  // explodeMap

  /** One `k=v` item cut by `strings.SplitN(part, "=", 2)`: no "=" gives an empty value. */
  function KeyValue(part: string): (string, string) {
    var cut := Cut(part, "=");
    if |cut| > 1 then (cut[0], cut[1]) else (cut[0], "")
  }

  /**
   * An item without "=" is a key with an empty value; otherwise the key is
   * the text before the first "=" and the value all the text after it.
   */
  lemma KeyValueSpec(part: string)
    ensures !Contains(part, "=") ==> KeyValue(part) == (part, "")
    ensures Contains(part, "=") ==> part == KeyValue(part).0 + "=" + KeyValue(part).1
    ensures !Contains(KeyValue(part).0, "=")
  {
    CutSpec(part, "=");
  }

  /** The pairs of a list of `k=v` items. */
  function KeyValues(parts: seq<string>): (r: seq<(string, string)>)
    ensures |r| == |parts| && forall i :: 0 <= i < |parts| ==> r[i] == KeyValue(parts[i])
  {
    seq(|parts|, i requires 0 <= i < |parts| => KeyValue(parts[i]))
  }

  /** No pair has an empty key. */
  predicate Named(kvs: seq<(string, string)>) {
    forall i :: 0 <= i < |kvs| ==> kvs[i].0 != ""
  }

  /**
   * `explodeMap`: every item is split at its first "="; an empty key is an
   * invalid object.
   */
  function ExplodeMap(parts: seq<string>): (r: Result<Entries<string, string>, Error>)
    ensures r.Err? ==> r.error == InvalidObject(parts)
    ensures r.Ok? <==> forall i :: 0 <= i < |parts| ==> KeyValue(parts[i]).0 != ""
  {
    if Named(KeyValues(parts)) then Ok(PutAll([], KeyValues(parts)))
    else Err(InvalidObject(parts))
  }

  /** `explodeMap` as the source writes it: one pass that stops at the first empty key. */
  method ParseExplodeMap(parts: seq<string>) returns (r: Result<Entries<string, string>, Error>)
    ensures r == ExplodeMap(parts)
  {
    ghost var kvs := KeyValues(parts);
    var result: Entries<string, string> := [];
    var index := 0;
    while index < |parts|
      invariant 0 <= index <= |parts|
      invariant Named(kvs[..index])
      invariant result == PutAll([], kvs[..index])
    {
      var kv := KeyValue(parts[index]);
      assert kv == kvs[index];
      var key, value := kv.0, kv.1;
      if key == "" {
        assert !Named(kvs);
        return Err(InvalidObject(parts));
      }
      assert kvs[..index + 1] == kvs[..index] + [kv];
      assert (kvs[..index] + [kv])[..index] == kvs[..index];
      result := Put(result, key, value);
      index := index + 1;
    }
    assert kvs[..index] == kvs;
    return Ok(result);
  }

  /**
   * A successful `explodeMap` binds exactly the keys of the items, each to the
   * value of its last item, and has no duplicate keys.
   */
  lemma ExplodeMapSpec(parts: seq<string>)
    requires ExplodeMap(parts).Ok?
    ensures Distinct(ExplodeMap(parts).value)
    ensures forall i :: (0 <= i < |parts| && forall i' :: i < i' < |parts| ==> KeyValue(parts[i']).0 != KeyValue(parts[i]).0) ==>
      Get(ExplodeMap(parts).value, KeyValue(parts[i]).0) == Some(KeyValue(parts[i]).1)
    ensures forall k :: HasKey(ExplodeMap(parts).value, k) <==> exists i :: 0 <= i < |parts| && KeyValue(parts[i]).0 == k
  {
    PutAllSpec(KeyValues(parts));
  }

  // ---------------------------------------------------------------------
  // convertArray

  /** `convertArray`: copies each string into a fresh list of the same length. */
  method ConvertArray(values: seq<string>) returns (result: seq<string>)
    ensures |result| == |values|
    ensures forall i :: 0 <= i < |values| ==> result[i] == values[i]
  {
    var items := new string[|values|](_ => "");
    var index := 0;
    while index < |values|
      invariant 0 <= index <= |values|
      invariant forall i :: 0 <= i < index ==> items[i] == values[i]
    {
      items[index] := values[index];
      index := index + 1;
    }
    result := items[..];
  }
}
