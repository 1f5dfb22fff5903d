/**
 * The converter (converter.go): copies a source value into a target value of
 * another type, dispatching on the target's kind. Go writes into the target
 * in place and may stop half-way on an error; here every conversion returns
 * an `Outcome`, the target's new value together with the error, if any, so
 * that the writes made before a failure stay visible.
 *
 * The methods a type may implement (`MarshalText`, `UnmarshalText`) are the
 * two hooks of a `Codec`, consulted only for struct types that declare the
 * matching capability.
 */
module Converters {
  import opened Wrappers
  import opened Assoc
  import Numbers
  import opened Values
  import opened Errors
  import opened Tags
  import opened Records

  /**
   * The text methods of the program's struct types, and `json.Unmarshal` of a
   * literal into a fresh value of a type (used only by the corrected
   * `SetDefault`).
   */
  datatype Codec = Codec(
    marshal: Value -> Result<string, Error>,
    unmarshal: (StructType, string) -> Result<Value, Error>,
    unmarshalJson: (Type, string) -> Result<Value, Error>)

  /** A target after a conversion, and the error that stopped it, if any. */
  datatype Outcome = Outcome(value: Value, error: Option<Error>)

  function Done(v: Value): Outcome { Outcome(v, None) }

  function Fail(v: Value, e: Error): Outcome { Outcome(v, Some(e)) }

  /** `d.error(source, target, ...)`: the kinds of the two values. */
  function Mismatch(s: Value, t: Value): Error {
    CannotConvert(KindOfValue(s), KindOfValue(t))
  }

  /** `set(target, v)` with its error ignored: the target keeps its value when nothing is assignable. */
  function SetTo(t: Value, v: Value): (r: Value)
    ensures TypeOf(r) == TypeOf(t)
  {
    match Assign(TypeOf(t), v)
    case Some(w) => w
    case None => t
  }

  /** `set(field.Value, v)` on field `index` of a record. */
  function SetField(t: Value, index: nat, v: Value): (r: Value)
    requires t.Record?
    ensures r.Record? && r.st == t.st && |r.fields| == |t.fields|
    ensures forall j :: 0 <= j < |t.fields| && j != index ==> r.fields[j] == t.fields[j]
    ensures TypeOf(r) == TypeOf(t)
  {
    if index < |t.fields| then Record(t.st, t.fields[index := SetTo(t.fields[index], v)]) else t
  }

  /** The bytes of a `json.RawMessage`, as `uint8` values. */
  function Bytes(text: string): (bs: seq<Value>)
    ensures |bs| == |text| && forall k :: 0 <= k < |bs| ==> bs[k] == Opaque("uint8", text[k] == 0 as char)
  {
    seq(|text|, k requires 0 <= k < |text| => Opaque("uint8", text[k] == 0 as char))
  }

  // ---------------------------------------------------------------------
  // convert and its dispatch

  /**
   * `convert`: an invalid source resets the target to a fresh zero value, a
   * source of the target's own type is copied, otherwise the target's kind
   * picks the rule. The target's type never changes.
   */
  function Conv(c: Codec, tagName: string, s: Value, t: Value): (o: Outcome)
    ensures TypeOf(o.value) == TypeOf(t)
    decreases Depth(s), Ext(t), TDepth(TypeOf(t)), 2, 0
  {
    if s.Absent? then Done(SetTo(t, Create(TypeOf(t))))
    else if TypeOf(s) == TypeOf(t) then Done(SetTo(t, s))
    else
      match t
      case Str(_) => ToString(c, s, t)
      case Bool(_) => ToBool(s, t)
      case Int(_) => ToInt(s, t)
      case Uint(_) => ToUint(s, t)
      case Record(_, _) => ToStruct(c, tagName, s, t)
      case Map(_, _, _, _) => ToMap(c, tagName, s, t)
      case Slice(_, _, _) => ToArray(c, tagName, s, t)
      case Array(_, _) => ToArray(c, tagName, s, t)
      case Ptr(_, _) => ToPtr(c, tagName, s, t)
      case Dyn(_) => ToIface(c, tagName, s, t)
      case Raw(_, _) => ToRaw(c, tagName, s, t)
      case _ => Fail(t, Mismatch(s, t))
  }

  /**
   * `convertToString`: booleans as "1"/"0", integers in base 10, and a struct
   * or a pointer to one through `MarshalText`. `MarshalText` is a method with
   * a value receiver, as on the test suite's `Text`, so the pointer type has it
   * too, and calling it through a nil pointer panics.
   */
  function ToString(c: Codec, s: Value, t: Value): (o: Outcome)
    requires t.Str?
    ensures o.value.Str?
    ensures o.error.Some? ==> o.value == t
    ensures s.Ptr? && s.target.Some? && s.target.value.Record? && TextMarshaler in s.target.value.st.caps ==>
      (o.error.None? <==> c.marshal(s.target.value).Ok?) &&
      (o.error.None? ==> o.value == Str(c.marshal(s.target.value).value))
  {
    match s
    case Bool(b) => Done(Str(if b then "1" else "0"))
    case Int(i) => Done(Str(Numbers.FormatInt(i)))
    case Uint(u) => Done(Str(Numbers.FormatUint(u)))
    case Record(st, _) =>
      if TextMarshaler in st.caps then MarshalInto(c, s, s, t) else Fail(t, Mismatch(s, t))
    case Ptr(pointee, target) =>
      (match target
       case Some(r) =>
         if r.Record? && TextMarshaler in r.st.caps then MarshalInto(c, s, r, t) else Fail(t, Mismatch(s, t))
       case None =>
         if pointee.TStruct? && TextMarshaler in pointee.st.caps then Fail(t, Panic("value method MarshalText called using nil pointer"))
         else Fail(t, Mismatch(s, t)))
    case _ => Fail(t, Mismatch(s, t))
  }

  /** `marshalText` of source `s` reaching struct `r`'s `MarshalText`: its text, or a failure that keeps the target. */
  function MarshalInto(c: Codec, s: Value, r: Value, t: Value): (o: Outcome)
    requires t.Str?
    ensures o.value.Str? && (o.error.Some? ==> o.value == t)
    ensures o.error.None? <==> c.marshal(r).Ok?
  {
    match c.marshal(r)
    case Ok(text) => Done(Str(text))
    case Err(_) => Fail(t, Mismatch(s, t))
  }

  /** `convertToBool`: integers compare with zero, strings go through `strconv.ParseBool`, "" is false. */
  function ToBool(s: Value, t: Value): (o: Outcome)
    requires t.Bool?
    ensures o.value.Bool?
    ensures o.error.Some? ==> o.value == t
  {
    match s
    case Int(i) => Done(Bool(i != 0))
    case Uint(u) => Done(Bool(u != 0))
    case Str(x) =>
      (match Numbers.ParseBool(x)
       case Some(b) => Done(Bool(b))
       case None => if x == "" then Done(Bool(false)) else Fail(t, Mismatch(s, t)))
    case _ => Fail(t, Mismatch(s, t))
  }

  /** `convertToInt`: `int64(u)` for a `uint`, 1 or 0 for a bool, `strconv.ParseInt` for a string. */
  function ToInt(s: Value, t: Value): (o: Outcome)
    requires t.Int?
    ensures o.value.Int?
    ensures o.error.Some? ==> o.value == t
  {
    match s
    case Uint(u) => Done(Int(Numbers.ToSigned(u)))
    case Bool(b) => Done(Int(if b then 1 else 0))
    case Str(x) =>
      (match Numbers.ParseInt(x)
       case Some(i) => Done(Int(i))
       case None => Fail(t, Mismatch(s, t)))
    case _ => Fail(t, Mismatch(s, t))
  }

  /** `convertToUint`: `uint64(i)` for an `int`, 1 or 0 for a bool, `strconv.ParseUint` for a string. */
  function ToUint(s: Value, t: Value): (o: Outcome)
    requires t.Uint?
    ensures o.value.Uint?
    ensures o.error.Some? ==> o.value == t
  {
    match s
    case Int(i) => Done(Uint(Numbers.ToUnsigned(i)))
    case Bool(b) => Done(Uint(if b then 1 else 0))
    case Str(x) =>
      (match Numbers.ParseUint(x)
       case Some(u) => Done(Uint(u))
       case None => Fail(t, Mismatch(s, t)))
    case _ => Fail(t, Mismatch(s, t))
  }

  /**
   * `convertToStruct`: a string through `UnmarshalText`; a struct through
   * its `Struct.Map`, and a map directly, read field by field.
   */
  function ToStruct(c: Codec, tagName: string, s: Value, t: Value): (o: Outcome)
    requires t.Record?
    ensures TypeOf(o.value) == TypeOf(t)
    decreases Depth(s), Ext(t), TDepth(TypeOf(t)), 1, 0
  {
    match s
    case Str(x) =>
      if TextUnmarshaler in t.st.caps then
        (match c.unmarshal(t.st, x)
         case Ok(v) => Done(SetTo(t, v))
         case Err(_) => Fail(t, Mismatch(s, t)))
      else Fail(t, Mismatch(s, t))
    case Record(_, _) =>
      var views := Fields(t.st, tagName);
      StoreFields(KeyedConvs(c, tagName, Depth(s), TString, TreeOf(s, tagName), views), views, 0, t)
    case Map(k, _, entries, _) =>
      var views := Fields(t.st, tagName);
      StoreFields(KeyedConvs(c, tagName, Depth(s), k, entries, views), views, 0, t)
    case _ => Fail(t, Mismatch(s, t))
  }

  /**
   * What `convertStructFromMap` computes for field view `f`: the field's
   * tag name converted to the map's key type and, when that succeeds and
   * the map holds the key, the key's value converted into a fresh value of
   * the field's type.
   */
  function KeyedConv(c: Codec, tagName: string, bound: nat, keyType: Type, entries: seq<(Value, Value)>,
                     f: FieldView): (Outcome, Option<Outcome>)
    requires bound >= 1
    requires forall j :: 0 <= j < |entries| ==> Depth(entries[j].1) < bound
    decreases bound, 0, 0, 0, 0
  {
    var key := Conv(c, tagName, Str(f.tag.name), Zero(keyType));
    if key.error.Some? then (key, None)
    else
      match Get(entries, key.value)
      case None => (key, None)
      case Some(item) =>
        ElemDepth(item);
        (key, Some(Conv(c, tagName, Elem(item), Create(f.ty))))
  }

  /** The `KeyedConv` of every field view, in order. */
  function KeyedConvs(c: Codec, tagName: string, bound: nat, keyType: Type, entries: seq<(Value, Value)>,
                      views: seq<FieldView>): (r: seq<(Outcome, Option<Outcome>)>)
    requires bound >= 1
    requires forall j :: 0 <= j < |entries| ==> Depth(entries[j].1) < bound
    ensures |r| == |views|
    decreases bound, 0, 0, 0, 1
  {
    seq(|views|, j requires 0 <= j < |views| => KeyedConv(c, tagName, bound, keyType, entries, views[j]))
  }

  /**
   * `convertStructFromMap`'s loop from field view `views[i]` on, given what
   * each view's key and value convert to: a failed key or value conversion
   * stops the loop with that error, a missing key leaves the field alone,
   * and a converted value is stored into the field.
   */
  function StoreFields(convs: seq<(Outcome, Option<Outcome>)>, views: seq<FieldView>, i: nat, t: Value): (o: Outcome)
    requires t.Record? && |convs| == |views| && i <= |views|
    ensures TypeOf(o.value) == TypeOf(t)
    ensures o.value.Record? && |o.value.fields| == |t.fields|
    decreases |views| - i
  {
    if i == |views| then Done(t)
    else if convs[i].0.error.Some? then Outcome(t, convs[i].0.error)
    else
      match convs[i].1
      case None => StoreFields(convs, views, i + 1, t)
      case Some(conv) =>
        if conv.error.Some? then Outcome(t, conv.error)
        else StoreFields(convs, views, i + 1, SetField(t, views[i].index, conv.value))
  }

  /** `convertToMap`: from a map, or from a struct's `Struct.Map`. */
  function ToMap(c: Codec, tagName: string, s: Value, t: Value): (o: Outcome)
    requires t.Map?
    ensures TypeOf(o.value) == TypeOf(t)
    decreases Depth(s), Ext(t), TDepth(TypeOf(t)), 1, 0
  {
    match s
    case Map(_, _, _, _) => MapFromMap(c, tagName, Depth(s), s, t)
    case Record(_, _) => MapFromMap(c, tagName, Depth(s), Map(TString, TIface, TreeOf(s, tagName), false), t)
    case _ => Fail(t, Mismatch(s, t))
  }

  /** Every entry's key and value are shallower than `bound`. */
  predicate EntriesWithin(entries: seq<(Value, Value)>, bound: nat) {
    forall j :: 0 <= j < |entries| ==> Depth(entries[j].0) < bound && Depth(entries[j].1) < bound
  }

  /** `convertMapFromMap`: a source of the target's type replaces it wholesale; otherwise entry by entry. */
  function MapFromMap(c: Codec, tagName: string, bound: nat, sm: Value, t: Value): (o: Outcome)
    requires sm.Map? && t.Map? && EntriesWithin(sm.entries, bound)
    ensures TypeOf(o.value) == TypeOf(t)
    decreases bound, 0, 0, 1, 0
  {
    if TypeOf(sm) == TypeOf(t) then Done(SetTo(t, sm))
    else Merge(EntryConvs(c, tagName, bound, sm.entries, t.key, t.elem), 0, t)
  }

  /**
   * The conversions of each entry, looked through: its key into a zero
   * value of the key type `kt`, its value into a fresh value of the element
   * type `et`; what `convertMapFromMap` computes in turn `i` of its loop.
   */
  function EntryConvs(c: Codec, tagName: string, bound: nat, entries: seq<(Value, Value)>, kt: Type, et: Type): (r: seq<(Outcome, Outcome)>)
    requires EntriesWithin(entries, bound)
    ensures |r| == |entries|
    decreases bound, 0, 0, 0, 0
  {
    seq(|entries|, j requires 0 <= j < |entries| =>
      ElemDepth(entries[j].0);
      ElemDepth(entries[j].1);
      (Conv(c, tagName, Elem(entries[j].0), Zero(kt)), Conv(c, tagName, Elem(entries[j].1), Create(et))))
  }

  /**
   * The loop of `convertMapFromMap` from entry `i` on, given the entries'
   * conversions: the first error ends it; a zero converted value is
   * dropped, any other is stored under the converted key with
   * `SetMapIndex`, which panics on a nil map or a value not assignable to
   * the element type.
   */
  function Merge(convs: seq<(Outcome, Outcome)>, i: nat, t: Value): (o: Outcome)
    requires t.Map? && i <= |convs|
    ensures o.value.Map? && o.value.key == t.key && o.value.elem == t.elem && o.value.isNil == t.isNil
    decreases |convs| - i
  {
    if i == |convs| then Done(t)
    else
      var (key, conv) := convs[i];
      if key.error.Some? then Outcome(t, key.error)
      else if conv.error.Some? then Outcome(t, conv.error)
      else if IsZero(conv.value) then Merge(convs, i + 1, t)
      else if t.isNil then Fail(t, Panic("assignment to entry in nil map"))
      else if !AssignableTo(TypeOf(conv.value), t.elem) then Fail(t, Panic("value not assignable to the map's element type"))
      else Merge(convs, i + 1, t.(entries := Put(t.entries, key.value, Store(t.elem, conv.value))))
  }

  /**
   * `convertToArray`: the items to copy are a slice's or an array's own, a
   * map's values, a struct's field values (`Struct.Array`), a raw message's bytes, or the
   * source alone (`MakeArrayOf`).
   */
  function ToArray(c: Codec, tagName: string, s: Value, t: Value): (o: Outcome)
    requires t.Slice? || t.Array?
    ensures TypeOf(o.value) == TypeOf(t)
    decreases Depth(s), Ext(t), TDepth(TypeOf(t)), 1, 0
  {
    Fill(ItemConvs(c, tagName, Depth(s), ArrayItems(s, tagName), t.elem), 0, t)
  }

  /**
   * The items `convertToArray` reads from source `s`: a slice's or array's
   * items, a map's values (`Map.Values`), a struct's field values
   * (`Struct.Array`), a raw message's bytes, or `s` itself.
   */
  function ArrayItems(s: Value, tagName: string): (items: seq<Value>)
    ensures ItemsWithin(items, Depth(s))
  {
    ElemDepth(s);
    match s
    case Slice(_, items, _) => items
    case Array(_, items) => items
    case Map(_, _, entries, _) => EntryValues(entries)
    case Record(_, _) => StructArray(s, tagName).items
    case Raw(text, _) => Bytes(text)
    case _ => [s]
  }

  /** The element type of a `json.RawMessage`: `uint8`, a kind the converter has no rule for. */
  const ByteType := TOther("uint8")

  /** A `json.RawMessage` seen as the byte slice it is. */
  function RawBytes(t: Value): (v: Value)
    requires t.Raw?
    ensures v.Slice? && v.elem == ByteType && v.isNil == t.isNil && |v.items| == |t.text|
  {
    Slice(ByteType, Bytes(t.text), t.isNil)
  }

  /**
   * `convertToArray` into a `json.RawMessage`, a byte slice: the source's
   * items are converted into bytes and copied as into any slice, and the
   * first error ends the conversion. A byte is an opaque value here, so
   * the text of the message is kept as it was.
   */
  function ToRaw(c: Codec, tagName: string, s: Value, t: Value): (o: Outcome)
    requires t.Raw?
    ensures o.value == t
    decreases Depth(s), Ext(t), TDepth(TypeOf(t)), 1, 0
  {
    Outcome(t, Fill(ItemConvs(c, tagName, Depth(s), ArrayItems(s, tagName), ByteType), 0, RawBytes(t)).error)
  }

  /** Every item, looked through, is at most `bound` deep. */
  predicate ItemsWithin(items: seq<Value>, bound: nat) {
    forall j :: 0 <= j < |items| ==> Depth(Elem(items[j])) <= bound
  }

  /**
   * The conversion of each item, looked through, into a fresh value of the
   * element type `e`: what `convertArrayFromArray` computes for item `i` in
   * turn `i` of its loop.
   */
  function ItemConvs(c: Codec, tagName: string, bound: nat, items: seq<Value>, e: Type): (r: seq<Outcome>)
    requires ItemsWithin(items, bound)
    ensures |r| == |items|
    decreases bound, 0, 1 + TDepth(e), 0, 0
  {
    CreateShallow(e);
    seq(|items|, j requires 0 <= j < |items| => Conv(c, tagName, Elem(items[j]), Create(e)))
  }

  /**
   * `convertArrayFromArray` from item `i` on, given the items' conversions:
   * the first error ends the loop; a zero result is skipped; a non-zero one
   * is appended to a slice, or stored at index `i` of an array, where an
   * index past the end ends the conversion.
   */
  function Fill(convs: seq<Outcome>, i: nat, t: Value): (o: Outcome)
    requires (t.Slice? || t.Array?) && i <= |convs|
    ensures TypeOf(o.value) == TypeOf(t)
    decreases |convs| - i
  {
    if i == |convs| then Done(t)
    else if convs[i].error.Some? then Outcome(t, convs[i].error)
    else if IsZero(convs[i].value) then Fill(convs, i + 1, t)
    else if t.Array? then
      if i >= |t.items| then Done(t)
      else Fill(convs, i + 1, Array(t.elem, t.items[i := SetTo(t.items[i], convs[i].value)]))
    else Fill(convs, i + 1, Slice(t.elem, t.items + [SetTo(Zero(t.elem), convs[i].value)], false))
  }

  /**
   * `convertToPtr`: a nil pointer gets a fresh pointee, a non-nil one is
   * converted into where it points; on success the pointer is set to the
   * result, on failure a fresh pointee is dropped.
   */
  function ToPtr(c: Codec, tagName: string, s: Value, t: Value): (o: Outcome)
    requires t.Ptr?
    ensures TypeOf(o.value) == TypeOf(t)
    decreases Depth(s), Ext(t), TDepth(TypeOf(t)), 1, 0
  {
    ElemDepth(s);
    CreateShallow(t.pointee);
    var inner := if t.target.None? then Create(t.pointee) else t.target.value;
    var conv := Conv(c, tagName, Elem(s), inner);
    if conv.error.Some? then
      if t.target.None? then Outcome(t, conv.error) else Outcome(Ptr(t.pointee, Some(conv.value)), conv.error)
    else Done(SetTo(t, conv.value))
  }

  /**
   * `convertToBasic`: an interface holding a value is given a fresh value of
   * that value's type, converted from the source; an empty one takes the
   * source as it is.
   */
  function ToIface(c: Codec, tagName: string, s: Value, t: Value): (o: Outcome)
    requires t.Dyn?
    ensures TypeOf(o.value) == TypeOf(t)
    decreases Depth(s), Ext(t), TDepth(TypeOf(t)), 1, 0
  {
    if t.held.Some? then
      ElemDepth(s);
      CreateShallow(TypeOf(t.held.value));
      var conv := Conv(c, tagName, Elem(s), Create(TypeOf(t.held.value)));
      if conv.error.Some? then Outcome(t, conv.error)
      else Done(SetTo(t, conv.value))
    else Done(SetTo(t, s))
  }

  // ---------------------------------------------------------------------
  // check, Convert and Set

  /**
   * `check`: an argument must be a non-nil pointer; what it points to is
   * what gets converted.
   */
  function Check(name: string, v: Value): (r: Result<Value, Error>)
    ensures r.Ok? <==> v.Ptr? && v.target.Some?
    ensures r.Ok? ==> r.value == v.target.value
  {
    match v
    case Ptr(_, Some(p)) => Ok(p)
    case Ptr(_, None) => Err(NotAddressable(name))
    case _ => Err(NotAPointer(name))
  }

  /**
   * `Converter.Convert(from, to)`: both arguments are checked, then the
   * value `from` points to is converted into the one `to` points to; the
   * outcome's value is the new `to`.
   */
  function Converted(c: Codec, tagName: string, from: Value, to: Value): (o: Outcome)
    ensures TypeOf(o.value) == TypeOf(to)
  {
    match Check("source", from)
    case Err(e) => Fail(to, e)
    case Ok(s) =>
      match Check("target", to)
      case Err(e) => Fail(to, e)
      case Ok(t) =>
        var o := Conv(c, tagName, s, t);
        Outcome(Ptr(to.pointee, Some(o.value)), o.error)
  }

  /** The struct tag key `Set` reads field names from. */
  const FieldKey := "field"

  /** `Set(source, target)`: converts what `source` points to into what `target` points to, by "field" tags. */
  function Set(c: Codec, source: Value, target: Value): Outcome {
    Converted(c, FieldKey, source, target)
  }

  // ---------------------------------------------------------------------
  // The converter as the source writes it: methods that loop over the
  // source, each proved to compute the function it is named after.

  datatype Converter = Converter(tagName: string, codec: Codec)
  {
    /** `Convert`. */
    method Convert(from: Value, to: Value) returns (o: Outcome)
      ensures o == Converted(codec, tagName, from, to)
    {
      var source := Check("source", from);
      if source.Err? {
        return Fail(to, source.error);
      }
      var target := Check("target", to);
      if target.Err? {
        return Fail(to, target.error);
      }
      var inner := ConvertValue(source.value, target.value);
      o := Outcome(Ptr(to.pointee, Some(inner.value)), inner.error);
    }

    /** `convert`. */
    method ConvertValue(s: Value, t: Value) returns (o: Outcome)
      ensures o == Conv(codec, tagName, s, t)
      decreases Depth(s), Ext(t), TDepth(TypeOf(t)), 2, 0
    {
      if s.Absent? {
        return Done(SetTo(t, Create(TypeOf(t))));
      }
      if TypeOf(s) == TypeOf(t) {
        return Done(SetTo(t, s));
      }
      match t {
        case Str(_) => o := ToString(codec, s, t);
        case Bool(_) => o := ToBool(s, t);
        case Int(_) => o := ToInt(s, t);
        case Uint(_) => o := ToUint(s, t);
        case Record(_, _) => o := ConvertToStruct(s, t);
        case Map(_, _, _, _) => o := ConvertToMap(s, t);
        case Slice(_, _, _) => o := ConvertToArray(s, t);
        case Array(_, _) => o := ConvertToArray(s, t);
        case Ptr(_, _) => o := ConvertToPtr(s, t);
        case Dyn(_) => o := ConvertToBasic(s, t);
        case Raw(_, _) => o := ConvertToRaw(s, t);
        case _ => o := Fail(t, Mismatch(s, t));
      }
    }

    /** `convertToStruct`. */
    method ConvertToStruct(s: Value, t: Value) returns (o: Outcome)
      requires t.Record?
      ensures o == ToStruct(codec, tagName, s, t)
      decreases Depth(s), Ext(t), TDepth(TypeOf(t)), 1, 0
    {
      match s {
        case Record(_, _) =>
          var m := MapOfStruct(s, tagName);
          o := ConvertStructFromMap(Depth(s), m.key, m.entries, t);
        case Map(k, _, entries, _) =>
          o := ConvertStructFromMap(Depth(s), k, entries, t);
        case _ =>
          o := ToStruct(codec, tagName, s, t);
      }
    }

    /** `convertStructFromMap`: one pass over the target's fields. */
    method ConvertStructFromMap(bound: nat, keyType: Type, entries: seq<(Value, Value)>, t: Value) returns (o: Outcome)
      requires t.Record? && bound >= 1
      requires forall j :: 0 <= j < |entries| ==> Depth(entries[j].1) < bound
      ensures o == StoreFields(KeyedConvs(codec, tagName, bound, keyType, entries, Fields(t.st, tagName)), Fields(t.st, tagName), 0, t)
      decreases bound, 0, 0, 0, 1
    {
      var fields := ListFields(t.st, tagName);
      ghost var convs := KeyedConvs(codec, tagName, bound, keyType, entries, fields);
      var current := t;
      var i := 0;
      while i < |fields|
        invariant i <= |fields| && current.Record?
        invariant StoreFields(convs, fields, i, current) == StoreFields(convs, fields, 0, t)
      {
        var field := fields[i];
        var key, value := ConvertField(bound, keyType, entries, field);
        assert convs[i] == (key, value);
        if key.error.Some? {
          return Outcome(current, key.error);
        }
        if value.Some? {
          if value.value.error.Some? {
            return Outcome(current, value.value.error);
          }
          current := SetField(current, field.index, value.value.value);
        }
        i := i + 1;
      }
      o := Done(current);
    }

    /** One field of `convertStructFromMap`: its key, then its value when the map holds the key. */
    method ConvertField(bound: nat, keyType: Type, entries: seq<(Value, Value)>, field: FieldView)
      returns (key: Outcome, value: Option<Outcome>)
      requires bound >= 1
      requires forall j :: 0 <= j < |entries| ==> Depth(entries[j].1) < bound
      ensures (key, value) == KeyedConv(codec, tagName, bound, keyType, entries, field)
      decreases bound, 0, 0, 0, 0
    {
      key := ConvertValue(Str(field.tag.name), Zero(keyType));
      value := None;
      if key.error.None? {
        var item := Get(entries, key.value);
        if item.Some? {
          ElemDepth(item.value);
          var converted := ConvertValue(Elem(item.value), Create(field.ty));
          value := Some(converted);
        }
      }
    }

    /** `convertToMap`. */
    method ConvertToMap(s: Value, t: Value) returns (o: Outcome)
      requires t.Map?
      ensures o == ToMap(codec, tagName, s, t)
      decreases Depth(s), Ext(t), TDepth(TypeOf(t)), 1, 0
    {
      match s {
        case Map(_, _, _, _) =>
          o := ConvertMapFromMap(Depth(s), s, t);
        case Record(_, _) =>
          var m := MapOfStruct(s, tagName);
          o := ConvertMapFromMap(Depth(s), m, t);
        case _ =>
          o := Fail(t, Mismatch(s, t));
      }
    }

    /** `convertMapFromMap`: a wholesale copy, or one pass over the source's entries. */
    method ConvertMapFromMap(bound: nat, sm: Value, t: Value) returns (o: Outcome)
      requires sm.Map? && t.Map? && EntriesWithin(sm.entries, bound)
      ensures o == MapFromMap(codec, tagName, bound, sm, t)
      decreases bound, 0, 0, 1, 0
    {
      if TypeOf(sm) == TypeOf(t) {
        return Done(SetTo(t, sm));
      }
      ghost var convs := EntryConvs(codec, tagName, bound, sm.entries, t.key, t.elem);
      var current := t;
      var i := 0;
      while i < |sm.entries|
        invariant i <= |sm.entries| && current.Map? && current.key == t.key && current.elem == t.elem
        invariant Merge(convs, i, current) == Merge(convs, 0, t)
      {
        var (k, v) := sm.entries[i];
        ElemDepth(k);
        ElemDepth(v);
        var key := ConvertValue(Elem(k), Zero(current.key));
        assert key == convs[i].0;
        if key.error.Some? {
          return Outcome(current, key.error);
        }
        var converted := ConvertValue(Elem(v), Create(current.elem));
        assert converted == convs[i].1;
        if converted.error.Some? {
          return Outcome(current, converted.error);
        }
        if !IsZero(converted.value) {
          if current.isNil {
            return Fail(current, Panic("assignment to entry in nil map"));
          }
          if !AssignableTo(TypeOf(converted.value), current.elem) {
            return Fail(current, Panic("value not assignable to the map's element type"));
          }
          current := current.(entries := Put(current.entries, key.value, Store(current.elem, converted.value)));
        }
        i := i + 1;
      }
      o := Done(current);
    }

    /** `convertToArray`: picks the items to copy from the source's kind. */
    method ConvertToArray(s: Value, t: Value) returns (o: Outcome)
      requires t.Slice? || t.Array?
      ensures o == ToArray(codec, tagName, s, t)
      decreases Depth(s), Ext(t), TDepth(TypeOf(t)), 1, 0
    {
      var items := SourceItems(s);
      o := ConvertArrayFromArray(Depth(s), items, t);
    }

    /** `convertToArray` into a `json.RawMessage`. */
    method ConvertToRaw(s: Value, t: Value) returns (o: Outcome)
      requires t.Raw?
      ensures o == ToRaw(codec, tagName, s, t)
      decreases Depth(s), Ext(t), TDepth(TypeOf(t)), 1, 0
    {
      var items := SourceItems(s);
      var bytes := ConvertArrayFromArray(Depth(s), items, RawBytes(t));
      o := Outcome(t, bytes.error);
    }

    /** The items `convertToArray` reads from `s`. */
    method SourceItems(s: Value) returns (items: seq<Value>)
      ensures items == ArrayItems(s, tagName)
    {
      match s {
        case Slice(_, xs, _) =>
          items := xs;
        case Array(_, xs) =>
          items := xs;
        case Map(_, _, _, _) =>
          var values := MapValues(s);
          items := values.items;
        case Record(_, _) =>
          var fieldValues := ArrayOfStruct(s, tagName);
          items := fieldValues.items;
        case Raw(text, _) =>
          items := Bytes(text);
        case _ =>
          items := [s];
      }
    }

    /** `convertArrayFromArray`: one pass over the source items by index. */
    method ConvertArrayFromArray(bound: nat, items: seq<Value>, t: Value) returns (o: Outcome)
      requires t.Slice? || t.Array?
      requires ItemsWithin(items, bound)
      ensures o == Fill(ItemConvs(codec, tagName, bound, items, t.elem), 0, t)
      decreases bound, 0, 1 + TDepth(t.elem), 0, 1
    {
      ghost var convs := ItemConvs(codec, tagName, bound, items, t.elem);
      var current := t;
      var index := 0;
      while index < |items|
        invariant index <= |items| && (current.Slice? || current.Array?) && current.elem == t.elem
        invariant Fill(convs, index, current) == Fill(convs, 0, t)
      {
        CreateShallow(current.elem);
        var converted := ConvertValue(Elem(items[index]), Create(current.elem));
        assert converted == convs[index];
        if converted.error.Some? {
          return Outcome(current, converted.error);
        }
        if !IsZero(converted.value) {
          if current.Array? {
            if index >= |current.items| {
              return Done(current);
            }
            current := Array(current.elem, current.items[index := SetTo(current.items[index], converted.value)]);
          } else {
            current := Slice(current.elem, current.items + [SetTo(Zero(current.elem), converted.value)], false);
          }
        }
        index := index + 1;
      }
      o := Done(current);
    }

    /** `convertToPtr`. */
    method ConvertToPtr(s: Value, t: Value) returns (o: Outcome)
      requires t.Ptr?
      ensures o == ToPtr(codec, tagName, s, t)
      decreases Depth(s), Ext(t), TDepth(TypeOf(t)), 1, 0
    {
      ElemDepth(s);
      CreateShallow(t.pointee);
      var target := if t.target.None? then Create(t.pointee) else t.target.value;
      var converted := ConvertValue(Elem(s), target);
      if converted.error.Some? {
        if t.target.None? {
          return Outcome(t, converted.error);
        }
        return Outcome(Ptr(t.pointee, Some(converted.value)), converted.error);
      }
      o := Done(SetTo(t, converted.value));
    }

    /** `convertToBasic`. */
    method ConvertToBasic(s: Value, t: Value) returns (o: Outcome)
      requires t.Dyn?
      ensures o == ToIface(codec, tagName, s, t)
      decreases Depth(s), Ext(t), TDepth(TypeOf(t)), 1, 0
    {
      if t.held.None? {
        return Done(SetTo(t, s));
      }
      ElemDepth(s);
      CreateShallow(TypeOf(t.held.value));
      var converted := ConvertValue(Elem(s), Create(TypeOf(t.held.value)));
      if converted.error.Some? {
        return Outcome(t, converted.error);
      }
      o := Done(SetTo(t, converted.value));
    }
  }
}
