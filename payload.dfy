/**
 * What a provider hands back to the decoder, as plain data: nothing (a nil
 * interface), one string, a list of strings, a string-keyed map, or a JSON
 * literal. `ToValue` gives the Go value the decoder then sees through
 * `reflect.ValueOf`.
 */
module Payloads {
  import opened Wrappers
  import opened Values

  /** A value of a `map[string]interface{}` built by a provider: a string or a nested map. */
  datatype Tree = Leaf(s: string) | Node(entries: seq<(string, Tree)>)

  datatype Payload =
    | Nothing                                // nil
    | Text(s: string)                        // a string
    | List(items: seq<string>)               // a non-nil []interface{} of strings
    | NilList                                // a nil []interface{}
    | Dict(entries: seq<(string, Tree)>)     // a non-nil map[string]interface{}
    | NilDict                                // a nil map[string]interface{}
    | Json(text: string)                     // a json.RawMessage

  /** A map of strings, as the map-literal parsers build it. */
  function Leaves(m: seq<(string, string)>): (r: seq<(string, Tree)>)
    ensures |r| == |m| && forall i :: 0 <= i < |m| ==> r[i] == (m[i].0, Leaf(m[i].1))
  {
    if m == [] then [] else [(m[0].0, Leaf(m[0].1))] + Leaves(m[1..])
  }

  /**
   * `convertValue` (common.go) applied to an `arrayOf` result (None for a nil
   * slice): a one-element list is unwrapped, any other list is passed on.
   */
  function ConvertValue(values: Option<seq<string>>): (r: Payload)
    ensures values.Some? && |values.value| == 1 ==> r == Text(values.value[0])
    ensures values.Some? && |values.value| != 1 ==> r == List(values.value)
    ensures values.None? ==> r == NilList
  {
    match values
    case None => NilList
    case Some(items) => if |items| == 1 then Text(items[0]) else List(items)
  }

  /** `reflect.ValueOf` of a tree held in an interface. */
  function TreeValue(t: Tree): Value
    decreases t, 1
  {
    match t
    case Leaf(s) => Str(s)
    case Node(entries) => Map(TString, TIface, EntriesValue(t, entries), false)
  }

  function EntriesValue(ghost t: Tree, entries: seq<(string, Tree)>): (r: seq<(Value, Value)>)
    requires forall i :: 0 <= i < |entries| ==> entries[i].1 < t
    ensures |r| == |entries|
    ensures forall i :: 0 <= i < |entries| ==> r[i] == (Str(entries[i].0), Dyn(Some(TreeValue(entries[i].1))))
    decreases t, 0, |entries|
  {
    if entries == [] then []
    else [(Str(entries[0].0), Dyn(Some(TreeValue(entries[0].1))))] + EntriesValue(t, entries[1..])
  }

  /** `elem(reflect.ValueOf(value))` in `Decoder.decode` for a provider's result. */
  function ToValue(p: Payload): (v: Value)
    ensures p.Nothing? <==> v.Absent?
  {
    match p
    case Nothing => Absent
    case Text(s) => Str(s)
    case List(items) => Slice(TIface, seq(|items|, i requires 0 <= i < |items| => Dyn(Some(Str(items[i])))), false)
    case NilList => Slice(TIface, [], true)
    case Dict(entries) => Map(TString, TIface, EntriesValue(Node(entries), entries), false)
    case NilDict => Map(TString, TIface, [], true)
    case Json(text) => Raw(text, false)
  }
}
