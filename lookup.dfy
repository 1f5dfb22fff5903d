/**
 * The case-insensitive, first-match lookup by name that both the path
 * provider (`param`) and the cookie provider (`cookie`) perform over a
 * list of named values.
 */
module Lookup {
  import opened Wrappers
  import opened Strings

  /** No pair before position `n` carries `name`, ignoring case. */
  predicate NoneBefore(pairs: seq<(string, string)>, name: string, n: int) {
    forall j :: 0 <= j < n && j < |pairs| ==> !EqualFold(pairs[j].0, name)
  }

  /** The value of the first pair whose name equals `name` ignoring case. */
  function FirstFold(pairs: seq<(string, string)>, name: string): (r: Option<string>)
    ensures r.None? <==> NoneBefore(pairs, name, |pairs|)
    ensures r.Some? ==> exists i :: 0 <= i < |pairs| && EqualFold(pairs[i].0, name)
                                 && pairs[i].1 == r.value && NoneBefore(pairs, name, i)
  {
    if pairs == [] then None
    else if EqualFold(pairs[0].0, name) then Some(pairs[0].1)
    else
      var r := FirstFold(pairs[1..], name);
      assert NoneBefore(pairs[1..], name, |pairs| - 1) ==> NoneBefore(pairs, name, |pairs|) by {
        if NoneBefore(pairs[1..], name, |pairs| - 1) {
          forall j | 0 < j < |pairs| ensures !EqualFold(pairs[j].0, name) {
            assert pairs[j] == pairs[1..][j - 1];
          }
        }
      }
      if r.Some? then
        var i :| 0 <= i < |pairs| - 1 && EqualFold(pairs[1..][i].0, name)
                 && pairs[1..][i].1 == r.value && NoneBefore(pairs[1..], name, i);
        assert pairs[i + 1] == pairs[1..][i];
        assert NoneBefore(pairs, name, i + 1) by {
          forall j | 0 < j < i + 1 ensures !EqualFold(pairs[j].0, name) {
            assert pairs[j] == pairs[1..][j - 1];
          }
        }
        r
      else r
  }

  /** `param` / `cookie`: a linear scan that stops at the first match. */
  method Find(pairs: seq<(string, string)>, name: string) returns (r: Option<string>)
    ensures r == FirstFold(pairs, name)
  {
    var index := 0;
    while index < |pairs|
      invariant 0 <= index <= |pairs|
      invariant NoneBefore(pairs, name, index)
    {
      if EqualFold(pairs[index].0, name) {
        return Some(pairs[index].1);
      }
      index := index + 1;
    }
    return None;
  }

  /** Names that differ only in letter case find the same value. */
  lemma {:induction false} FoldInsensitive(pairs: seq<(string, string)>, a: string, b: string)
    requires EqualFold(a, b)
    ensures FirstFold(pairs, a) == FirstFold(pairs, b)
  {
    if pairs != [] {
      FoldInsensitive(pairs[1..], a, b);
    }
  }
}
