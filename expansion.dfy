/**
 * The wire forms the providers read, after RFC 6570 (URI Template):
 * simple string expansion (section 3.2.2), label expansion (section 3.2.5)
 * and path-style parameter expansion (section 3.2.7), each with and without
 * the explode modifier (section 2.4.2), for a single value, a list and a
 * list of name/value pairs. Values are taken as already percent-encoded, so
 * they never hold the separator characters. One difference from the RFC:
 * the path-style lead is always ";name=", so an empty value is written
 * ";name=" where section 3.2.7 writes ";name"; that is the prefix the path
 * provider cuts off.
 *
 * These are the reference forms the decoders are proved to invert, together
 * with the facts about the map-literal parsers that the proofs need.
 */
module Expansion {
  import opened Wrappers
  import opened Strings
  import opened Assoc
  import opened Pairs
  import opened Errors
  import opened Payloads

  datatype Style = SimpleStyle | LabelStyle | MatrixStyle

  /** What precedes a single value or a list: nothing, ".", or ";name=". */
  function Lead(style: Style, name: string): string {
    match style
    case SimpleStyle => ""
    case LabelStyle => "."
    case MatrixStyle => ";" + name + "="
  }

  /** What separates list items: "," unless exploded, then the lead again. */
  function ListJoiner(style: Style, explode: bool, name: string): (j: string)
    ensures |j| > 0
  {
    if explode && style != SimpleStyle then Lead(style, name) else ","
  }

  function ExpandScalar(style: Style, name: string, v: string): string {
    Lead(style, name) + v
  }

  function ExpandList(style: Style, explode: bool, name: string, items: seq<string>): string {
    Lead(style, name) + Join(items, ListJoiner(style, explode, name))
  }

  /** Pairs written flat, `k1,v1,k2,v2`, as an unexploded map is. */
  function Flat(es: seq<(string, string)>): (r: seq<string>)
    ensures |r| == 2 * |es|
    ensures forall i :: 0 <= i < |es| ==> r[2 * i] == es[i].0 && r[2 * i + 1] == es[i].1
  {
    if es == [] then []
    else
      var rest := Flat(es[1..]);
      var r := [es[0].0, es[0].1] + rest;
      assert forall i :: 1 <= i < |es| ==> r[2 * i] == rest[2 * (i - 1)] && r[2 * i + 1] == rest[2 * (i - 1) + 1];
      r
  }

  /** Pairs written `k=v`, as an exploded map is. */
  function Assigns(es: seq<(string, string)>): (r: seq<string>)
    ensures |r| == |es| && forall i :: 0 <= i < |es| ==> r[i] == es[i].0 + "=" + es[i].1
  {
    seq(|es|, i requires 0 <= i < |es| => es[i].0 + "=" + es[i].1)
  }

  /** The lead of a map: as for a list, except that an exploded path-style map starts with ";" alone. */
  function MapLead(style: Style, explode: bool, name: string): string {
    if style == MatrixStyle && explode then ";" else Lead(style, name)
  }

  function MapJoiner(style: Style, explode: bool): (j: string)
    ensures |j| > 0
  {
    if !explode then ","
    else match style
      case SimpleStyle => ","
      case LabelStyle => "."
      case MatrixStyle => ";"
  }

  function ExpandMap(style: Style, explode: bool, name: string, es: seq<(string, string)>): string {
    MapLead(style, explode, name) + Join(if explode then Assigns(es) else Flat(es), MapJoiner(style, explode))
  }

  predicate ItemsFree(items: seq<string>, c: char) {
    forall i :: 0 <= i < |items| ==> c !in items[i]
  }

  /** Keys and values avoid `c`, and keys are non-empty. */
  predicate PairsFree(es: seq<(string, string)>, c: char) {
    forall i :: 0 <= i < |es| ==> es[i].0 != "" && c !in es[i].0 && c !in es[i].1
  }

  // ---------------------------------------------------------------------
  // What the map-literal parsers make of these forms

  /** Assigning pairs whose keys are all different, in order, gives those pairs. */
  lemma {:induction false} PutAllFresh(xs: seq<(string, string)>)
    requires Distinct(xs)
    ensures PutAll([], xs) == xs
    decreases |xs|
  {
    if xs != [] {
      var n := |xs| - 1;
      assert Distinct(xs[..n]);
      PutAllFresh(xs[..n]);
      assert !HasKey(xs[..n], xs[n].0) by {
        forall j | 0 <= j < n ensures xs[..n][j].0 != xs[n].0 {
          assert Keys(xs)[j] == xs[j].0 && Keys(xs)[n] == xs[n].0;
        }
      }
      PutShape(xs[..n], xs[n].0, xs[n].1);
      assert xs[..n] + [(xs[n].0, xs[n].1)] == xs;
    }
  }

  /** `convertMap` reads a flat rendering back into its pairs. */
  lemma ConvertMapFlat(es: seq<(string, string)>)
    requires Distinct(es)
    requires forall i :: 0 <= i < |es| ==> es[i].0 != ""
    ensures ConvertMap(Flat(es)) == Ok(es)
  {
    var parts := Flat(es);
    assert PairsOf(parts) == es;
    assert !HasEmptyKey(parts) by {
      forall i | 0 <= i < |parts| / 2 ensures parts[2 * i] != "" {
        assert parts[2 * i] == es[i].0;
      }
    }
    PutAllFresh(es);
  }

  /** `SplitN(k + "=" + v, "=", 2)` gives back `k` and `v` when `k` holds no "=". */
  lemma KeyValueOfAssign(k: string, v: string)
    requires '=' !in k
    ensures KeyValue(k + "=" + v) == (k, v)
  {
    var s := k + "=" + v;
    assert OccursAt(s, "=", |k|);
    forall j | 0 <= j < |k| ensures !OccursAt(s, "=", j) {
      assert s[j] == k[j];
      assert s[j..j + 1][0] == s[j];
    }
    FirstOccurrence(s, "=", |k|);
    assert s[..|k|] == k && s[|k| + 1..] == v;
  }

  /** `explodeMap` reads a `k=v` rendering back into its pairs. */
  lemma ExplodeMapAssigns(es: seq<(string, string)>)
    requires Distinct(es) && PairsFree(es, '=')
    ensures ExplodeMap(Assigns(es)) == Ok(es)
  {
    var parts := Assigns(es);
    forall i | 0 <= i < |es| ensures KeyValue(parts[i]) == es[i] {
      KeyValueOfAssign(es[i].0, es[i].1);
    }
    assert KeyValues(parts) == es;
    PutAllFresh(es);
  }

  /** A flat rendering of pairs free of `c` has no part holding `c`. */
  lemma FlatFree(es: seq<(string, string)>, c: char)
    requires PairsFree(es, c)
    ensures ItemsFree(Flat(es), c)
  {
    var parts := Flat(es);
    forall j | 0 <= j < |parts| ensures c !in parts[j] {
      var i := j / 2;
      if j == 2 * i {
        assert parts[2 * i] == es[i].0;
      } else {
        assert j == 2 * i + 1 && parts[2 * i + 1] == es[i].1;
      }
    }
  }

  /** A `k=v` rendering of pairs free of `c` (other than "=") has no item holding `c`. */
  lemma AssignsFree(es: seq<(string, string)>, c: char)
    requires PairsFree(es, c) && c != '='
    ensures ItemsFree(Assigns(es), c)
  {
  }

  // ---------------------------------------------------------------------
  // Reading a map back

  /** The map a provider reads from split parts: `k=v` items when exploded, flat pairs otherwise; errors carry the provider's prefix. */
  function Parsed(origin: Origin, parts: seq<string>, explode: bool): Result<Payload, Error> {
    match (if explode then ExplodeMap(parts) else ConvertMap(parts))
    case Err(e) => Err(Prefixed(origin, e))
    case Ok(es) => Ok(Dict(Leaves(es)))
  }

  /** Exploded pairs joined by `joiner` read back as the same map. */
  lemma ExplodedRoundTrip(origin: Origin, es: seq<(string, string)>, joiner: string)
    requires |joiner| > 0 && joiner[0] != '=' && |es| >= 1 && Distinct(es)
    requires PairsFree(es, joiner[0]) && PairsFree(es, '=')
    ensures Parsed(origin, Split(Join(Assigns(es), joiner), joiner), true) == Ok(Dict(Leaves(es)))
  {
    AssignsFree(es, joiner[0]);
    SplitJoin(Assigns(es), joiner);
    ExplodeMapAssigns(es);
  }

  /** Flat pairs joined by `joiner` read back as the same map. */
  lemma FlatRoundTrip(origin: Origin, es: seq<(string, string)>, joiner: string)
    requires |joiner| > 0 && |es| >= 1 && Distinct(es) && PairsFree(es, joiner[0])
    ensures Parsed(origin, Split(Join(Flat(es), joiner), joiner), false) == Ok(Dict(Leaves(es)))
  {
    FlatFree(es, joiner[0]);
    SplitJoin(Flat(es), joiner);
    ConvertMapFlat(es);
  }
}
