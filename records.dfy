/**
 * The record views of common.go that the converter reads a struct through:
 * `Struct.Map` (with its recursive `tree`), `Struct.Array` and `Map.Values`.
 */
module Records {
  import opened Wrappers
  import opened Assoc
  import opened Values
  import opened Tags

  /** The tag name of a squashed field, whose own fields are lifted into its parent. */
  const SquashName := "~"
  const OmitEmpty := "omitempty"

  /** `Struct.Value.Field(index)`; an index beyond the record's own fields reads as invalid. */
  function FieldAt(r: Value, index: nat): (v: Value)
    requires r.Record?
    ensures Depth(v) < Depth(r)
  {
    if index < |r.fields| then r.fields[index] else Absent
  }

  /** Whether field view `f` of `r` puts an entry of its own into `tree`'s map. */
  predicate Contributes(r: Value, f: FieldView)
    requires r.Record?
  {
    f.tag.name != SquashName && !(HasOption(f.tag, OmitEmpty) && IsZero(FieldAt(r, f.index)))
  }

  /**
   * `tree` over the views `views[i..]` of record `r`, starting from the map
   * `kv`: a squashed field lifts the entries of the struct it holds, a zero
   * `omitempty` field is skipped, any other field is stored under its tag
   * name, a later field overwriting an earlier one of the same name.
   */
  function Flatten(kv: Entries<Value, Value>, r: Value, tagName: string, views: seq<FieldView>, i: nat): (out: Entries<Value, Value>)
    requires r.Record? && i <= |views| && Distinct(kv)
    ensures Distinct(out)
    decreases Depth(r), 1, |views| - i
  {
    if i == |views| then kv
    else Flatten(AddField(kv, r, tagName, views[i]), r, tagName, views, i + 1)
  }

  /** What `tree` does with one field `f` of record `r`. */
  function AddField(kv: Entries<Value, Value>, r: Value, tagName: string, f: FieldView): (out: Entries<Value, Value>)
    requires r.Record? && Distinct(kv)
    ensures Distinct(out)
    decreases Depth(r), 0, 0
  {
    var v := FieldAt(r, f.index);
    if f.tag.name == SquashName then
      ElemDepth(v);
      Lift(kv, Elem(v), tagName)
    else if HasOption(f.tag, OmitEmpty) && IsZero(v) then kv
    else
      PutDistinct(kv, Str(f.tag.name), Store(TIface, v));
      Put(kv, Str(f.tag.name), Store(TIface, v))
  }

  /** What a squashed field holding `inner` adds: the entries of `inner` when it is a struct, nothing otherwise. */
  function Lift(kv: Entries<Value, Value>, inner: Value, tagName: string): (out: Entries<Value, Value>)
    requires Distinct(kv)
    ensures Distinct(out)
    decreases Depth(inner), 2
  {
    if inner.Record? then Flatten(kv, inner, tagName, Fields(inner.st, tagName), 0) else kv
  }

  /** An entry `tree` adds for a record of depth below `bound`: a named interface value, shallower than the record. */
  predicate Lifted(e: (Value, Value), bound: nat) {
    e.0.Str? && e.0.s != SquashName && e.1.Dyn? && Depth(e.1) < bound
  }

  lemma {:induction false} LiftEntries(kv: Entries<Value, Value>, inner: Value, tagName: string)
    requires Distinct(kv)
    ensures forall e :: e in Lift(kv, inner, tagName) ==> e in kv || Lifted(e, Depth(inner))
    decreases Depth(inner), 2, 0
  {
    if inner.Record? {
      FlattenEntries(kv, inner, tagName, Fields(inner.st, tagName), 0);
    }
  }

  lemma PutLifted(kv: Entries<Value, Value>, name: string, v: Value, bound: nat)
    requires Distinct(kv) && name != SquashName && Depth(v) < bound
    ensures Distinct(Put(kv, Str(name), Store(TIface, v)))
    ensures forall e :: e in Put(kv, Str(name), Store(TIface, v)) ==> e in kv || Lifted(e, bound)
  {
    PutEntries(kv, Str(name), Store(TIface, v));
    PutDistinct(kv, Str(name), Store(TIface, v));
  }

  /** Every entry `tree` leaves in the map was there before or was added for a field of `r`. */
  lemma {:induction false} FlattenEntries(kv: Entries<Value, Value>, r: Value, tagName: string, views: seq<FieldView>, i: nat)
    requires r.Record? && i <= |views| && Distinct(kv)
    ensures forall e :: e in Flatten(kv, r, tagName, views, i) ==> e in kv || Lifted(e, Depth(r))
    decreases Depth(r), 1, |views| - i
  {
    if i < |views| {
      var f := views[i];
      var v := FieldAt(r, f.index);
      if f.tag.name == SquashName {
        var inner := Elem(v);
        ElemDepth(v);
        var lifted := Lift(kv, inner, tagName);
        LiftEntries(kv, inner, tagName);
        assert forall e :: e in lifted ==> e in kv || Lifted(e, Depth(r));
        FlattenEntries(lifted, r, tagName, views, i + 1);
      } else if HasOption(f.tag, OmitEmpty) && IsZero(v) {
        FlattenEntries(kv, r, tagName, views, i + 1);
      } else {
        var kv' := Put(kv, Str(f.tag.name), Store(TIface, v));
        PutLifted(kv, f.tag.name, v, Depth(r));
        FlattenEntries(kv', r, tagName, views, i + 1);
      }
    }
  }

  /** `Struct.Map`: the entries of the `map[string]interface{}` that `tree` fills. */
  function TreeOf(r: Value, tagName: string): (m: Entries<Value, Value>)
    requires r.Record?
    ensures Distinct(m)
    ensures forall j :: 0 <= j < |m| ==> Lifted(m[j], Depth(r)) && Depth(m[j].0) < Depth(r)
  {
    FlattenEntries([], r, tagName, Fields(r.st, tagName), 0);
    var m := Flatten([], r, tagName, Fields(r.st, tagName), 0);
    assert forall j :: 0 <= j < |m| ==> m[j] in m;
    m
  }

  /** `tree`: fills `kv` with the fields of `ch`, recursing into squashed structs. */
  method Tree(ch: Value, tagName: string, kv: Entries<Value, Value>) returns (out: Entries<Value, Value>)
    requires ch.Record? && Distinct(kv)
    ensures out == Flatten(kv, ch, tagName, Fields(ch.st, tagName), 0)
    decreases Depth(ch)
  {
    var fields := ListFields(ch.st, tagName);
    out := kv;
    var i := 0;
    while i < |fields|
      invariant i <= |fields| && Distinct(out)
      invariant Flatten(out, ch, tagName, fields, i) == Flatten(kv, ch, tagName, fields, 0)
    {
      var field := fields[i];
      var value := FieldAt(ch, field.index);
      ghost var before := out;
      if field.tag.name == SquashName {
        var inner := Elem(value);
        ElemDepth(value);
        if inner.Record? {
          out := Tree(inner, tagName, out);
        }
        assert out == Lift(before, inner, tagName);
      } else if !(HasOption(field.tag, OmitEmpty) && IsZero(value)) {
        PutDistinct(out, Str(field.tag.name), Store(TIface, value));
        out := Put(out, Str(field.tag.name), Store(TIface, value));
      }
      assert out == AddField(before, ch, tagName, field);
      i := i + 1;
    }
  }

  /** `Struct.Map`, as a `map[string]interface{}` value. */
  method MapOfStruct(r: Value, tagName: string) returns (m: Value)
    requires r.Record?
    ensures m == Map(TString, TIface, TreeOf(r, tagName), false)
  {
    var items := Tree(r, tagName, []);
    m := Map(TString, TIface, items, false);
  }

  /**
   * The value the last contributing field named `name` among `views` stores,
   * if any: an independent reading of "a later field overwrites an earlier one".
   */
  function LastNamed(r: Value, views: seq<FieldView>, name: string): Option<Value>
    requires r.Record?
  {
    if views == [] then None
    else
      match LastNamed(r, views[1..], name)
      case Some(x) => Some(x)
      case None =>
        if Contributes(r, views[0]) && views[0].tag.name == name then Some(Store(TIface, FieldAt(r, views[0].index)))
        else None
  }

  /**
   * Without squashed fields, the map `tree` builds holds, under each name,
   * the value of the last contributing field of that name, and what `kv`
   * held for names no field contributes.
   */
  lemma {:induction false} FlattenFlat(kv: Entries<Value, Value>, r: Value, tagName: string, views: seq<FieldView>, i: nat, name: string)
    requires r.Record? && i <= |views| && Distinct(kv)
    requires forall k :: i <= k < |views| ==> views[k].tag.name != SquashName
    ensures Get(Flatten(kv, r, tagName, views, i), Str(name)) ==
      match LastNamed(r, views[i..], name)
      case Some(x) => Some(x)
      case None => Get(kv, Str(name))
    decreases |views| - i
  {
    if i < |views| {
      var f := views[i];
      var v := FieldAt(r, f.index);
      LastNamedStep(r, views, i, name);
      if HasOption(f.tag, OmitEmpty) && IsZero(v) {
        assert AddField(kv, r, tagName, f) == kv;
        FlattenFlat(kv, r, tagName, views, i + 1, name);
      } else {
        var kv' := Put(kv, Str(f.tag.name), Store(TIface, v));
        PutDistinct(kv, Str(f.tag.name), Store(TIface, v));
        assert AddField(kv, r, tagName, f) == kv';
        FlattenFlat(kv', r, tagName, views, i + 1, name);
        if f.tag.name == name {
          GetPut(kv, Str(f.tag.name), Store(TIface, v));
        } else {
          GetPutOther(kv, Str(f.tag.name), Store(TIface, v), Str(name));
        }
      }
    } else {
      assert views[i..] == [];
    }
  }

  /** `LastNamed` on a suffix of the views, one view at a time. */
  lemma LastNamedStep(r: Value, views: seq<FieldView>, i: nat, name: string)
    requires r.Record? && i < |views|
    ensures LastNamed(r, views[i..], name) ==
      match LastNamed(r, views[i + 1..], name)
      case Some(x) => Some(x)
      case None =>
        if Contributes(r, views[i]) && views[i].tag.name == name then Some(Store(TIface, FieldAt(r, views[i].index)))
        else None
  {
    assert views[i..][1..] == views[i + 1..];
    assert views[i..][0] == views[i];
  }

  /** `Struct.Map` of a record with no squashed fields: each name maps to its last contributing field. */
  lemma MapOfFlatRecord(r: Value, tagName: string, name: string)
    requires r.Record?
    requires forall k :: 0 <= k < |Fields(r.st, tagName)| ==> Fields(r.st, tagName)[k].tag.name != SquashName
    ensures Get(TreeOf(r, tagName), Str(name)) == LastNamed(r, Fields(r.st, tagName), name)
  {
    var views := Fields(r.st, tagName);
    FlattenFlat([], r, tagName, views, 0, name);
    assert views[0..] == views;
  }

  /** A squashed field's own name never becomes a key. */
  lemma NoSquashKey(r: Value, tagName: string)
    requires r.Record?
    ensures !HasKey(TreeOf(r, tagName), Str(SquashName))
  {
    var m := TreeOf(r, tagName);
    assert forall i :: 0 <= i < |m| ==> m[i].0 != Str(SquashName);
  }

  /** A record whose only listed field squashes a struct has exactly that struct's map. */
  lemma {:induction false} SquashLifts(r: Value, tagName: string)
    requires r.Record? && |Fields(r.st, tagName)| == 1
    requires Fields(r.st, tagName)[0].tag.name == SquashName
    requires Elem(FieldAt(r, Fields(r.st, tagName)[0].index)).Record?
    ensures TreeOf(r, tagName) == TreeOf(Elem(FieldAt(r, Fields(r.st, tagName)[0].index)), tagName)
  {
    var views := Fields(r.st, tagName);
    var inner := Elem(FieldAt(r, views[0].index));
    var lifted := Lift([], inner, tagName);
    assert AddField([], r, tagName, views[0]) == lifted;
    assert Flatten([], r, tagName, views, 0) == Flatten(lifted, r, tagName, views, 1) == lifted;
  }

  // ---------------------------------------------------------------------
  // Struct.Array and Map.Values

  /** The interface values of the listed fields, in order. */
  function FieldValues(r: Value, views: seq<FieldView>): (vs: seq<Value>)
    requires r.Record?
    ensures |vs| == |views|
    ensures forall k :: 0 <= k < |views| ==> vs[k] == Store(TIface, FieldAt(r, views[k].index))
  {
    if views == [] then [] else [Store(TIface, FieldAt(r, views[0].index))] + FieldValues(r, views[1..])
  }

  /**
   * `Struct.Array` as intended: the listed fields' values, boxed as
   * `interface{}`, in declaration order and nothing else.
   */
  function FieldArray(r: Value, tagName: string): (a: Value)
    requires r.Record?
    ensures a.Slice? && !a.isNil && a.elem == TIface
    ensures |a.items| == |Fields(r.st, tagName)|
    ensures forall k :: 0 <= k < |a.items| ==>
      a.items[k] == Store(TIface, FieldAt(r, Fields(r.st, tagName)[k].index)) &&
      Depth(Elem(a.items[k])) < Depth(r)
  {
    var views := Fields(r.st, tagName);
    var items := FieldValues(r, views);
    assert forall k :: 0 <= k < |items| ==> Depth(Elem(items[k])) < Depth(r) by {
      forall k | 0 <= k < |items| ensures Depth(Elem(items[k])) < Depth(r) {
        ElemDepth(FieldAt(r, views[k].index));
      }
    }
    Slice(TIface, items, false)
  }

  /**
   * `Struct.Array` as written: the slice is made with as many nil entries
   * as there are listed fields, and the field values are appended after
   * them.
   */
  function StructArray(r: Value, tagName: string): (a: Value)
    requires r.Record?
    ensures a.Slice? && !a.isNil && a.elem == TIface
    ensures |a.items| == 2 * |Fields(r.st, tagName)|
    ensures forall k :: 0 <= k < |Fields(r.st, tagName)| ==> a.items[k] == Dyn(None)
    ensures a.items[|Fields(r.st, tagName)|..] == FieldArray(r, tagName).items
    ensures forall k :: 0 <= k < |a.items| ==> Depth(Elem(a.items[k])) < Depth(r)
  {
    var n := |Fields(r.st, tagName)|;
    var padding := seq(n, _ => Dyn(None));
    var values := FieldArray(r, tagName).items;
    assert (padding + values)[n..] == values;
    Slice(TIface, padding + values, false)
  }

  /**
   * `Struct.Array`: the slice is made with one nil entry per listed field,
   * then one append per listed field.
   */
  method ArrayOfStruct(r: Value, tagName: string) returns (a: Value)
    requires r.Record?
    ensures a == StructArray(r, tagName)
  {
    var fields := ListFields(r.st, tagName);
    var items: seq<Value> := seq(|fields|, _ => Dyn(None));
    var i := 0;
    while i < |fields|
      invariant i <= |fields|
      invariant items == seq(|fields|, _ => Dyn(None)) + FieldValues(r, fields[..i])
    {
      assert fields[..i + 1] == fields[..i] + [fields[i]];
      FieldValuesSnoc(r, fields[..i], fields[i]);
      items := items + [Store(TIface, FieldAt(r, fields[i].index))];
      i := i + 1;
    }
    assert fields[..i] == fields;
    a := Slice(TIface, items, false);
  }

  lemma FieldValuesSnoc(r: Value, views: seq<FieldView>, f: FieldView)
    requires r.Record?
    ensures FieldValues(r, views + [f]) == FieldValues(r, views) + [Store(TIface, FieldAt(r, f.index))]
  {
  }

  /** The values of a map's entries, in iteration order. */
  function EntryValues(entries: seq<(Value, Value)>): (vs: seq<Value>)
    ensures |vs| == |entries| && forall i :: 0 <= i < |entries| ==> vs[i] == entries[i].1
  {
    seq(|entries|, i requires 0 <= i < |entries| => entries[i].1)
  }

  /** `Map.Values`: a slice of the map's element type holding its values in iteration order. */
  method MapValues(m: Value) returns (a: Value)
    requires m.Map?
    ensures a == Slice(m.elem, EntryValues(m.entries), false)
  {
    var items: seq<Value> := [];
    var i := 0;
    while i < |m.entries|
      invariant i <= |m.entries|
      invariant items == EntryValues(m.entries[..i])
    {
      items := items + [m.entries[i].1];
      i := i + 1;
    }
    assert m.entries[..i] == m.entries;
    a := Slice(m.elem, items, false);
  }
}
