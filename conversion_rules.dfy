/**
 * The rules of the conversion matrix (converter.go), stated over `Conv` and
 * its loops: what a nil source does, which scalar conversions round-trip,
 * which combinations are refused and leave the target alone, how maps gain
 * entries, how slices grow and arrays are filled, which struct fields a map
 * reaches, and how a nil pointer is allocated.
 */
module ConversionRules {
  import opened Wrappers
  import opened Assoc
  import Numbers
  import opened Strings
  import opened Values
  import opened Errors
  import opened Tags
  import opened Records
  import opened Converters

  // ---------------------------------------------------------------------
  // Invalid sources and identical types

  /**
   * A nil source resets the target to a fresh zero value; a nil pointer
   * target is allocated and points at a zero value.
   */
  lemma AbsentResets(c: Codec, tagName: string, t: Value)
    requires !(t.Ptr? && t.pointee.TPtr?)
    ensures Conv(c, tagName, Absent, t) ==
      Done(if t.Ptr? then Ptr(t.pointee, Some(Zero(t.pointee))) else Zero(TypeOf(t)))
    ensures !t.Ptr? ==> IsZero(Conv(c, tagName, Absent, t).value)
  {
    ZeroIsZero(TypeOf(t));
  }

  /** A source of the target's own type replaces it. */
  lemma SameTypeCopies(c: Codec, tagName: string, s: Value, t: Value)
    requires !s.Absent? && TypeOf(s) == TypeOf(t)
    ensures Conv(c, tagName, s, t) == Done(s)
  {
  }

  // ---------------------------------------------------------------------
  // Scalars

  /** A bool written as text and read back is the same bool. */
  lemma BoolStringRoundTrip(c: Codec, tagName: string, b: bool, x: string, y: bool)
    ensures Conv(c, tagName, Bool(b), Str(x)) == Done(Str(if b then "1" else "0"))
    ensures Conv(c, tagName, Conv(c, tagName, Bool(b), Str(x)).value, Bool(y)) == Done(Bool(b))
  {
  }

  /** An int64 written in base 10 and parsed back is the same integer. */
  lemma IntStringRoundTrip(c: Codec, tagName: string, i: int, x: string, y: int)
    requires Numbers.IsInt64(i)
    ensures Conv(c, tagName, Int(i), Str(x)).error.None?
    ensures Conv(c, tagName, Conv(c, tagName, Int(i), Str(x)).value, Int(y)) == Done(Int(i))
  {
    Numbers.ParseFormatInt(i);
  }

  /** A uint64 written in base 10 and parsed back is the same integer. */
  lemma UintStringRoundTrip(c: Codec, tagName: string, u: nat, x: string, y: nat)
    requires Numbers.IsUint64(u)
    ensures Conv(c, tagName, Uint(u), Str(x)).error.None?
    ensures Conv(c, tagName, Conv(c, tagName, Uint(u), Str(x)).value, Uint(y)) == Done(Uint(u))
  {
    Numbers.ParseFormatUint(u);
  }

  /** A decimal text without leading zeros, parsed into a uint and written back, is unchanged. */
  lemma DecimalTextRoundTrip(c: Codec, tagName: string, x: string, u: nat, y: string)
    requires Numbers.ParseUint(x).Some?
    requires |x| == 1 || x[0] != '0'
    ensures Conv(c, tagName, Str(x), Uint(u)) == Done(Uint(Numbers.ParseUint(x).value))
    ensures Conv(c, tagName, Conv(c, tagName, Str(x), Uint(u)).value, Str(y)) == Done(Str(x))
  {
    Numbers.FormatParseUint(x);
  }

  /**
   * A struct with `MarshalText`, or a non-nil pointer to one, into a string:
   * the string is the struct's text, and the conversion fails exactly when
   * `MarshalText` does, with the source's own kind in the error.
   */
  lemma MarshalerIntoString(c: Codec, tagName: string, r: Value, x: string)
    requires r.Record? && TextMarshaler in r.st.caps
    ensures var p := Ptr(TStruct(r.st), Some(r));
      Conv(c, tagName, p, Str(x)) ==
        (match c.marshal(r)
         case Ok(text) => Done(Str(text))
         case Err(_) => Fail(Str(x), CannotConvert(KPtr, KString)))
    ensures Conv(c, tagName, r, Str(x)) ==
        (match c.marshal(r)
         case Ok(text) => Done(Str(text))
         case Err(_) => Fail(Str(x), CannotConvert(KStruct, KString)))
  {
  }

  /** `MarshalText` has a value receiver, so calling it through a nil pointer panics. */
  lemma NilMarshalerPanics(c: Codec, tagName: string, st: StructType, x: string)
    requires TextMarshaler in st.caps
    ensures var o := Conv(c, tagName, Ptr(TStruct(st), None), Str(x));
      o.error.Some? && o.error.value.Panic? && o.value == Str(x)
  {
  }

  /**
   * Text into a bool: the `strconv.ParseBool` spellings and "" are accepted,
   * anything else is refused and leaves the target as it was.
   */
  lemma StringToBool(c: Codec, tagName: string, x: string, b: bool)
    ensures var o := Conv(c, tagName, Str(x), Bool(b));
      (o.error.None? <==>
        x == "" || x in {"1", "t", "T", "TRUE", "true", "True"} || x in {"0", "f", "F", "FALSE", "false", "False"}) &&
      (o.error.None? ==> (o.value == Bool(true) <==> x in {"1", "t", "T", "TRUE", "true", "True"})) &&
      (o.error.Some? ==> o == Fail(Bool(b), CannotConvert(KString, KBool)))
  {
  }

  /** Text that is not an int64 in base 10 is refused and leaves the target as it was. */
  lemma BadIntegerKeepsTarget(c: Codec, tagName: string, x: string, i: int)
    requires Numbers.ParseInt(x).None?
    ensures Conv(c, tagName, Str(x), Int(i)) == Fail(Int(i), CannotConvert(KString, KInt))
  {
  }

  /** `uint64(i)` then `int64(u)` gives back every int64. */
  lemma IntUintRoundTrip(c: Codec, tagName: string, i: int, u: nat, j: int)
    requires Numbers.IsInt64(i)
    ensures Conv(c, tagName, Int(i), Uint(u)).error.None?
    ensures Conv(c, tagName, Conv(c, tagName, Int(i), Uint(u)).value, Int(j)) == Done(Int(i))
  {
    Numbers.CastsRoundTrip(i, 0);
  }

  /** A bool becomes 1 or 0 and comes back from the number unchanged. */
  lemma BoolNumberRoundTrip(c: Codec, tagName: string, b: bool, i: int, u: nat, y: bool)
    ensures Conv(c, tagName, Bool(b), Int(i)) == Done(Int(if b then 1 else 0))
    ensures Conv(c, tagName, Bool(b), Uint(u)) == Done(Uint(if b then 1 else 0))
    ensures Conv(c, tagName, Conv(c, tagName, Bool(b), Int(i)).value, Bool(y)) == Done(Bool(b))
    ensures Conv(c, tagName, Conv(c, tagName, Bool(b), Uint(u)).value, Bool(y)) == Done(Bool(b))
  {
  }

  // ---------------------------------------------------------------------
  // Refused combinations

  /**
   * A number into a struct or a map, a struct without `MarshalText` into a
   * string, and anything into a kind the converter does not know all fail
   * with the two kinds, and the target is left as it was.
   */
  lemma Mismatches(c: Codec, tagName: string, i: int, r: Value, m: Value, x: string, o: Value, s: Value)
    requires r.Record? && TextMarshaler !in r.st.caps
    requires m.Map?
    requires o.Opaque? && !s.Absent? && TypeOf(s) != TypeOf(o)
    ensures Conv(c, tagName, Int(i), r) == Fail(r, CannotConvert(KInt, KStruct))
    ensures Conv(c, tagName, Int(i), m) == Fail(m, CannotConvert(KInt, KMap))
    ensures Conv(c, tagName, r, Str(x)) == Fail(Str(x), CannotConvert(KStruct, KString))
    ensures Conv(c, tagName, s, o) == Fail(o, CannotConvert(KindOfValue(s), KindOfValue(o)))
  {
  }

  // ---------------------------------------------------------------------
  // Maps

  /**
   * The entry loop never removes a key, and every entry it leaves behind
   * was there before or holds a non-zero value.
   */
  lemma {:induction false} MergeGrows(convs: seq<(Outcome, Outcome)>, i: nat, t: Value)
    requires t.Map? && i <= |convs|
    ensures var r := Merge(convs, i, t).value;
      (forall k :: HasKey(t.entries, k) ==> HasKey(r.entries, k)) &&
      (forall e :: e in r.entries ==> e in t.entries || !IsZero(e.1))
    decreases |convs| - i
  {
    if i < |convs| {
      var (key, conv) := convs[i];
      if key.error.None? && conv.error.None? {
        if IsZero(conv.value) {
          MergeGrows(convs, i + 1, t);
        } else if !t.isNil && AssignableTo(TypeOf(conv.value), t.elem) {
          var stored := Store(t.elem, conv.value);
          var t' := Map(t.key, t.elem, Put(t.entries, key.value, stored), t.isNil);
          MergeGrows(convs, i + 1, t');
          forall k | HasKey(t.entries, k) ensures HasKey(t'.entries, k) {
            PutKeepsKeys(t.entries, key.value, stored, k);
          }
          PutEntries(t.entries, key.value, stored);
          assert !IsZero(stored);
        }
      }
    }
  }

  /**
   * Converting a map into a map of another type only adds or overwrites
   * entries, and only with non-zero values: zero values are dropped.
   */
  lemma MapConversionOnlyAdds(c: Codec, tagName: string, s: Value, t: Value)
    requires s.Map? && t.Map? && TypeOf(s) != TypeOf(t)
    ensures var r := Conv(c, tagName, s, t).value;
      r.Map? &&
      (forall k :: HasKey(t.entries, k) ==> HasKey(r.entries, k)) &&
      (forall e :: e in r.entries ==> e in t.entries || !IsZero(e.1))
  {
    MapIntoMap(c, tagName, s, t);
    MergeGrows(EntryConvs(c, tagName, Depth(s), s.entries, t.key, t.elem), 0, t);
  }

  /** A map into a map of another type goes entry by entry. */
  lemma MapIntoMap(c: Codec, tagName: string, s: Value, t: Value)
    requires s.Map? && t.Map? && TypeOf(s) != TypeOf(t)
    ensures Conv(c, tagName, s, t) == Merge(EntryConvs(c, tagName, Depth(s), s.entries, t.key, t.elem), 0, t)
  {
    assert Conv(c, tagName, s, t) == ToMap(c, tagName, s, t);
    assert ToMap(c, tagName, s, t) == MapFromMap(c, tagName, Depth(s), s, t);
  }

  /** A struct into a `map[string]interface{}` is the struct's `Struct.Map` tree, replacing the target. */
  lemma RecordIntoGenericMap(c: Codec, tagName: string, r: Value, es: seq<(Value, Value)>, isNil: bool)
    requires r.Record?
    ensures Conv(c, tagName, r, Map(TString, TIface, es, isNil)) == Done(Map(TString, TIface, TreeOf(r, tagName), false))
  {
    var t := Map(TString, TIface, es, isNil);
    var tree := Map(TString, TIface, TreeOf(r, tagName), false);
    assert Conv(c, tagName, r, t) == ToMap(c, tagName, r, t);
    assert ToMap(c, tagName, r, t) == MapFromMap(c, tagName, Depth(r), tree, t);
  }

  /** The entries of `{"a": 0, "b": 2}` convert to a string key and a `uint` each. */
  lemma ZeroEntryConvs(c: Codec, tagName: string, bound: nat)
    requires bound >= 1
    ensures EntryConvs(c, tagName, bound, [(Str("a"), Int(0)), (Str("b"), Int(2))], TString, TUint)
         == [(Done(Str("a")), Done(Uint(0))), (Done(Str("b")), Done(Uint(2)))]
  {
    var convs := EntryConvs(c, tagName, bound, [(Str("a"), Int(0)), (Str("b"), Int(2))], TString, TUint);
    NameKey(c, tagName, "a");
    NameKey(c, tagName, "b");
    assert Conv(c, tagName, Int(0), Create(TUint)) == Done(Uint(0));
    assert Conv(c, tagName, Int(2), Create(TUint)) == Done(Uint(2));
    assert convs[0] == (Done(Str("a")), Done(Uint(0)));
    assert convs[1] == (Done(Str("b")), Done(Uint(2)));
  }

  /** Merging those conversions into an empty map skips the zero. */
  lemma ZeroEntryMerged()
    ensures Merge([(Done(Str("a")), Done(Uint(0))), (Done(Str("b")), Done(Uint(2)))], 0, Map(TString, TUint, [], false))
         == Done(Map(TString, TUint, [(Str("b"), Uint(2))], false))
  {
    var convs := [(Done(Str("a")), Done(Uint(0))), (Done(Str("b")), Done(Uint(2)))];
    var t' := Map(TString, TUint, [(Str("b"), Uint(2))], false);
    assert Merge(convs, 2, t') == Done(t');
    assert Merge(convs, 1, Map(TString, TUint, [], false)) == Done(t');
  }

  /** A zero value is not copied into the target map: `{"a": 0, "b": 2}` into an empty `map[string]uint` gives `{"b": 2}`. */
  lemma ZeroEntryDropped(c: Codec, tagName: string)
    ensures Conv(c, tagName, Map(TString, TInt, [(Str("a"), Int(0)), (Str("b"), Int(2))], false), Map(TString, TUint, [], false))
         == Done(Map(TString, TUint, [(Str("b"), Uint(2))], false))
  {
    var s := Map(TString, TInt, [(Str("a"), Int(0)), (Str("b"), Int(2))], false);
    var t := Map(TString, TUint, [], false);
    ZeroEntryConvs(c, tagName, Depth(s));
    ZeroEntryMerged();
    MapIntoMap(c, tagName, s, t);
  }

  // ---------------------------------------------------------------------
  // Slices and arrays

  predicate AllConvert(convs: seq<Outcome>) {
    forall j :: 0 <= j < |convs| ==> convs[j].error.None?
  }

  /** What a slice gains from the conversions `convs`: each non-zero one, in source order. */
  function Appended(convs: seq<Outcome>, e: Type): (r: seq<Value>)
    ensures |r| <= |convs|
  {
    if convs == [] then []
    else
      (if IsZero(convs[0].value) then [] else [SetTo(Zero(e), convs[0].value)]) + Appended(convs[1..], e)
  }

  /** `Appended` takes the conversions one at a time from the front. */
  lemma AppendedStep(convs: seq<Outcome>, i: nat, e: Type)
    requires i < |convs|
    ensures Appended(convs[i..], e) ==
      (if IsZero(convs[i].value) then [] else [SetTo(Zero(e), convs[i].value)]) + Appended(convs[i + 1..], e)
  {
    assert convs[i..][0] == convs[i];
    assert convs[i..][1..] == convs[i + 1..];
  }

  /** The array loop over a slice target appends exactly `Appended`, keeping what the slice held. */
  lemma {:induction false} SliceLoopAppends(convs: seq<Outcome>, i: nat, t: Value)
    requires t.Slice? && i <= |convs|
    requires forall j :: i <= j < |convs| ==> convs[j].error.None?
    ensures Fill(convs, i, t) ==
      Done(Slice(t.elem, t.items + Appended(convs[i..], t.elem), t.isNil && Appended(convs[i..], t.elem) == []))
    decreases |convs| - i
  {
    if i < |convs| {
      AppendedStep(convs, i, t.elem);
      var rest := Appended(convs[i + 1..], t.elem);
      if IsZero(convs[i].value) {
        assert Appended(convs[i..], t.elem) == rest;
        SliceLoopAppends(convs, i + 1, t);
      } else {
        var x := SetTo(Zero(t.elem), convs[i].value);
        var t' := Slice(t.elem, t.items + [x], false);
        assert Appended(convs[i..], t.elem) == [x] + rest;
        SliceLoopAppends(convs, i + 1, t');
        assert t'.items + rest == t.items + ([x] + rest);
      }
    } else {
      assert convs[i..] == [];
    }
  }

  /** A slice into a slice of another element type: the target keeps its items and gains the non-zero conversions. */
  lemma SliceConversionAppends(c: Codec, tagName: string, s: Value, t: Value)
    requires s.Slice? && t.Slice? && TypeOf(s) != TypeOf(t)
    requires AllConvert(ItemConvs(c, tagName, Depth(s), s.items, t.elem))
    ensures var added := Appended(ItemConvs(c, tagName, Depth(s), s.items, t.elem), t.elem);
      Conv(c, tagName, s, t) == Done(Slice(t.elem, t.items + added, t.isNil && added == []))
  {
    var convs := ItemConvs(c, tagName, Depth(s), s.items, t.elem);
    assert convs[0..] == convs;
    assert Conv(c, tagName, s, t) == Fill(convs, 0, t);
    SliceLoopAppends(convs, 0, t);
  }

  /** A string into a nil `[]string` becomes its only item, unless it is empty. */
  lemma StringIntoSlice(c: Codec, tagName: string, x: string)
    ensures Conv(c, tagName, Str(x), Slice(TString, [], true)) ==
      Done(if x == "" then Slice(TString, [], true) else Slice(TString, [Str(x)], false))
  {
    var t := Slice(TString, [], true);
    var convs := ItemConvs(c, tagName, Depth(Str(x)), [Str(x)], TString);
    assert convs[0] == Done(Str(x));
    assert convs[0..] == convs && convs[1..] == [];
    assert Conv(c, tagName, Str(x), t) == Fill(convs, 0, t);
    SliceLoopAppends(convs, 0, t);
  }

  /** Over a slice target, the array loop ends without an error exactly when every remaining item converts. */
  lemma {:induction false} FillSliceSucceeds(convs: seq<Outcome>, i: nat, t: Value)
    requires t.Slice? && i <= |convs|
    ensures Fill(convs, i, t).error.None? <==> forall j :: i <= j < |convs| ==> convs[j].error.None?
    decreases |convs| - i
  {
    if i < |convs| && convs[i].error.None? {
      if IsZero(convs[i].value) {
        FillSliceSucceeds(convs, i + 1, t);
      } else {
        FillSliceSucceeds(convs, i + 1, Slice(t.elem, t.items + [SetTo(Zero(t.elem), convs[i].value)], false));
      }
    }
  }

  /**
   * A `json.RawMessage` target is converted as a byte slice: the conversion
   * succeeds exactly when every source item converts into a byte, and the
   * message itself is kept.
   */
  lemma RawAsBytes(c: Codec, tagName: string, s: Value, t: Value)
    requires t.Raw? && !s.Absent? && !s.Raw?
    ensures var convs := ItemConvs(c, tagName, Depth(s), ArrayItems(s, tagName), ByteType);
      Conv(c, tagName, s, t).value == t &&
      (Conv(c, tagName, s, t).error.None? <==> AllConvert(convs))
  {
    var convs := ItemConvs(c, tagName, Depth(s), ArrayItems(s, tagName), ByteType);
    assert Conv(c, tagName, s, t) == Outcome(t, Fill(convs, 0, RawBytes(t)).error);
    FillSliceSucceeds(convs, 0, RawBytes(t));
  }

  /**
   * A list with no items, such as the nil list a provider returns for a
   * missing parameter, leaves a `json.RawMessage` as it was, without an
   * error.
   */
  lemma RawFromEmptyList(c: Codec, tagName: string, e: Type, isNil: bool, t: Value)
    requires t.Raw?
    ensures Conv(c, tagName, Slice(e, [], isNil), t) == Done(t)
  {
    RawAsBytes(c, tagName, Slice(e, [], isNil), t);
  }

  /** A string into a `json.RawMessage` is a single item that is no byte, so the conversion fails. */
  lemma RawFromString(c: Codec, tagName: string, x: string, t: Value)
    requires t.Raw?
    ensures Conv(c, tagName, Str(x), t) == Fail(t, CannotConvert(KString, KOther))
  {
    var convs := ItemConvs(c, tagName, Depth(Str(x)), [Str(x)], ByteType);
    assert convs[0] == Fail(Zero(ByteType), CannotConvert(KString, KOther));
    assert Conv(c, tagName, Str(x), t) == Outcome(t, Fill(convs, 0, RawBytes(t)).error);
  }

  /** The element the array loop leaves at index `k` when every item from `i` on converts. */
  function StoredAt(convs: seq<Outcome>, i: nat, t: Value, k: nat): Value
    requires t.Array? && k < |t.items|
  {
    if i <= k < |convs| && !IsZero(convs[k].value) then SetTo(t.items[k], convs[k].value) else t.items[k]
  }

  /**
   * The array loop over an array target stores conversion `k` at index `k`
   * when it is non-zero and leaves every other element alone.
   */
  lemma {:induction false} FillStores(convs: seq<Outcome>, i: nat, t: Value)
    requires t.Array? && i <= |convs|
    requires forall j :: i <= j < |convs| ==> convs[j].error.None?
    ensures var o := Fill(convs, i, t);
      o.error.None? && o.value.Array? && |o.value.items| == |t.items| &&
      forall k :: 0 <= k < |t.items| ==> o.value.items[k] == StoredAt(convs, i, t, k)
    decreases |convs| - i
  {
    if i < |convs| {
      if IsZero(convs[i].value) {
        FillStores(convs, i + 1, t);
      } else if i < |t.items| {
        var t' := Array(t.elem, t.items[i := SetTo(t.items[i], convs[i].value)]);
        FillStores(convs, i + 1, t');
        assert forall k :: 0 <= k < |t.items| ==> StoredAt(convs, i + 1, t', k) == StoredAt(convs, i, t, k);
      }
    }
  }

  /** Once the index is past the end of an array target, the loop writes nothing more. */
  lemma {:induction false} FillPastEnd(convs: seq<Outcome>, i: nat, t: Value)
    requires t.Array? && |t.items| <= i <= |convs|
    ensures Fill(convs, i, t).value == t
    decreases |convs| - i
  {
    if i < |convs| {
      FillPastEnd(convs, i + 1, t);
    }
  }

  /** Conversions to zero are passed over without touching the target. */
  lemma {:induction false} FillSkipsZeros(convs: seq<Outcome>, i: nat, j: nat, t: Value)
    requires (t.Slice? || t.Array?) && i <= j <= |convs|
    requires forall m :: i <= m < j ==> convs[m].error.None? && IsZero(convs[m].value)
    ensures Fill(convs, i, t) == Fill(convs, j, t)
    decreases j - i
  {
    if i < j {
      FillSkipsZeros(convs, i + 1, j, t);
    }
  }

  /** A nil interface converts, into any element type but a pointer to a pointer, to a zero value. */
  lemma NilConvertsToZero(c: Codec, tagName: string, e: Type)
    requires !(e.TPtr? && e.elem.TPtr?)
    ensures Conv(c, tagName, Elem(Dyn(None)), Create(e)).error.None?
    ensures IsZero(Conv(c, tagName, Elem(Dyn(None)), Create(e)).value)
  {
    if e.TPtr? {
      ZeroIsZero(e.elem);
    } else {
      ZeroIsZero(e);
    }
  }

  /** The conversions of the nil padding of the as-written `Struct.Array` all succeed with zero. */
  lemma PaddingConvertsToZero(c: Codec, tagName: string, r: Value, e: Type)
    requires r.Record?
    requires !(e.TPtr? && e.elem.TPtr?)
    ensures forall m :: 0 <= m < |Fields(r.st, tagName)| ==>
      ItemConvs(c, tagName, Depth(r), StructArray(r, tagName).items, e)[m].error.None? &&
      IsZero(ItemConvs(c, tagName, Depth(r), StructArray(r, tagName).items, e)[m].value)
  {
    NilConvertsToZero(c, tagName, e);
    var items := StructArray(r, tagName).items;
    assert forall m :: 0 <= m < |Fields(r.st, tagName)| ==> items[m] == Dyn(None);
  }

  /**
   * `Struct.Array` as written, into a fixed-length array no longer than the
   * number of listed fields: every field value sits at an index past the
   * end, so the array is left exactly as it was.
   */
  lemma AsWrittenStructArrayStoresNothing(c: Codec, tagName: string, r: Value, t: Value)
    requires r.Record? && t.Array? && |t.items| <= |Fields(r.st, tagName)|
    requires !(t.elem.TPtr? && t.elem.elem.TPtr?)
    ensures Conv(c, tagName, r, t).value == t
  {
    var n := |Fields(r.st, tagName)|;
    var convs := ItemConvs(c, tagName, Depth(r), StructArray(r, tagName).items, t.elem);
    assert Conv(c, tagName, r, t) == Fill(convs, 0, t);
    PaddingConvertsToZero(c, tagName, r, t.elem);
    FillSkipsZeros(convs, 0, n, t);
    FillPastEnd(convs, n, t);
  }

  /**
   * The padding of the as-written `Struct.Array` is invisible to a slice
   * target: the nil entries convert to zero and are dropped.
   */
  lemma AsWrittenPaddingDropped(c: Codec, tagName: string, r: Value, e: Type)
    requires r.Record?
    requires !(e.TPtr? && e.elem.TPtr?)
    ensures Appended(ItemConvs(c, tagName, Depth(r), StructArray(r, tagName).items, e), e) ==
            Appended(ItemConvs(c, tagName, Depth(r), FieldArray(r, tagName).items, e), e)
  {
    var n := |Fields(r.st, tagName)|;
    var items := StructArray(r, tagName).items;
    var convs := ItemConvs(c, tagName, Depth(r), items, e);
    var rest := ItemConvs(c, tagName, Depth(r), FieldArray(r, tagName).items, e);
    ItemConvsSplit(c, tagName, Depth(r), items, n, e);
    assert items[n..] == FieldArray(r, tagName).items;
    PaddingConvertsToZero(c, tagName, r, e);
    AppendedSkipsZeros(convs[..n], rest, e);
  }

  /** The conversions of a sequence of items are those of its first `n` items followed by those of the rest. */
  lemma ItemConvsSplit(c: Codec, tagName: string, bound: nat, items: seq<Value>, n: nat, e: Type)
    requires ItemsWithin(items, bound) && n <= |items|
    ensures ItemsWithin(items[n..], bound)
    ensures ItemConvs(c, tagName, bound, items, e) ==
            ItemConvs(c, tagName, bound, items, e)[..n] + ItemConvs(c, tagName, bound, items[n..], e)
  {
    var convs := ItemConvs(c, tagName, bound, items, e);
    var rest := ItemConvs(c, tagName, bound, items[n..], e);
    assert forall k :: 0 <= k < |rest| ==> rest[k] == convs[n + k];
  }

  /** Leading conversions to zero add nothing to a slice. */
  lemma {:induction false} AppendedSkipsZeros(pad: seq<Outcome>, rest: seq<Outcome>, e: Type)
    requires forall m :: 0 <= m < |pad| ==> IsZero(pad[m].value)
    ensures Appended(pad + rest, e) == Appended(rest, e)
  {
    if pad != [] {
      assert (pad + rest)[0] == pad[0];
      assert (pad + rest)[1..] == pad[1..] + rest;
      AppendedSkipsZeros(pad[1..], rest, e);
    } else {
      assert pad + rest == rest;
    }
  }

  /**
   * A struct into a fixed-length array, through the intended
   * `Struct.Array`: when every field converts, the value of listed field `k`
   * is stored at index `k` if it is non-zero and fits.
   */
  lemma StructFillsArray(c: Codec, tagName: string, r: Value, t: Value)
    requires r.Record? && t.Array?
    requires AllConvert(ItemConvs(c, tagName, Depth(r), FieldArray(r, tagName).items, t.elem))
    ensures var convs := ItemConvs(c, tagName, Depth(r), FieldArray(r, tagName).items, t.elem);
      var o := Fill(convs, 0, t);
      o.error.None? && o.value.Array? && |o.value.items| == |t.items| &&
      forall k :: 0 <= k < |t.items| ==> o.value.items[k] == StoredAt(convs, 0, t, k)
  {
    var convs := ItemConvs(c, tagName, Depth(r), FieldArray(r, tagName).items, t.elem);
    FillStores(convs, 0, t);
  }

  // ---------------------------------------------------------------------
  // Structs from maps

  /** A string key converts to itself. */
  lemma NameKey(c: Codec, tagName: string, name: string)
    ensures Conv(c, tagName, Str(name), Zero(TString)) == Done(Str(name))
  {
  }

  /** A field that no remaining view finds a value for keeps its value. */
  lemma {:induction false} StoreFieldsUntouched(convs: seq<(Outcome, Option<Outcome>)>, views: seq<FieldView>, i: nat, t: Value, j: nat)
    requires t.Record? && |convs| == |views| && i <= |views|
    requires j < |t.fields|
    requires forall m :: i <= m < |views| && views[m].index == j ==> convs[m].1.None?
    ensures StoreFields(convs, views, i, t).value.fields[j] == t.fields[j]
    decreases |views| - i
  {
    if i < |views| && convs[i].0.error.None? {
      match convs[i].1
      case None =>
        StoreFieldsUntouched(convs, views, i + 1, t, j);
      case Some(conv) =>
        if conv.error.None? {
          StoreFieldsUntouched(convs, views, i + 1, SetField(t, views[i].index, conv.value), j);
        }
    }
  }

  /**
   * With field indexes increasing and no key or value conversion failing,
   * the loop ends without error and each view that found a value stores it.
   */
  lemma {:induction false} StoreFieldsSets(convs: seq<(Outcome, Option<Outcome>)>, views: seq<FieldView>, i: nat, t: Value)
    requires t.Record? && |convs| == |views| && i <= |views|
    requires forall a, b :: i <= a < b < |views| ==> views[a].index < views[b].index
    requires forall m :: i <= m < |views| ==>
      convs[m].0.error.None? && (convs[m].1.Some? ==> convs[m].1.value.error.None?)
    ensures var o := StoreFields(convs, views, i, t);
      o.error.None? &&
      forall m :: i <= m < |views| && convs[m].1.Some? && views[m].index < |t.fields| ==>
        o.value.fields[views[m].index] == SetTo(t.fields[views[m].index], convs[m].1.value.value)
    decreases |views| - i
  {
    if i < |views| {
      match convs[i].1
      case None =>
        StoreFieldsSets(convs, views, i + 1, t);
      case Some(conv) =>
        var t' := SetField(t, views[i].index, conv.value);
        StoreFieldsSets(convs, views, i + 1, t');
        if views[i].index < |t.fields| {
          StoreFieldsUntouched(convs, views, i + 1, t', views[i].index);
        }
    }
  }

  /** The value a map entry gives a field view. */
  function FieldConv(c: Codec, tagName: string, entries: seq<(Value, Value)>, f: FieldView): Outcome
    requires HasKey(entries, Str(f.tag.name))
  {
    Conv(c, tagName, Elem(Get(entries, Str(f.tag.name)).value), Create(f.ty))
  }

  /** With string keys, a field view finds the value its tag name is the key of, if any. */
  lemma StringKeyed(c: Codec, tagName: string, bound: nat, entries: seq<(Value, Value)>, f: FieldView)
    requires bound >= 1
    requires forall j :: 0 <= j < |entries| ==> Depth(entries[j].1) < bound
    ensures KeyedConv(c, tagName, bound, TString, entries, f) ==
      (Done(Str(f.tag.name)), if HasKey(entries, Str(f.tag.name)) then Some(FieldConv(c, tagName, entries, f)) else None)
  {
    NameKey(c, tagName, f.tag.name);
  }

  /**
   * With string keys, the field loop stores into each listed field the
   * converted value of the key named after it, and leaves a field whose name
   * is no key alone.
   */
  lemma StringKeysStored(c: Codec, tagName: string, bound: nat, entries: seq<(Value, Value)>, t: Value)
    requires t.Record? && bound >= 1
    requires forall m :: 0 <= m < |entries| ==> Depth(entries[m].1) < bound
    requires forall m :: 0 <= m < |Fields(t.st, tagName)| && HasKey(entries, Str(Fields(t.st, tagName)[m].tag.name)) ==>
      FieldConv(c, tagName, entries, Fields(t.st, tagName)[m]).error.None?
    ensures var views := Fields(t.st, tagName);
      var o := StoreFields(KeyedConvs(c, tagName, bound, TString, entries, views), views, 0, t);
      o.error.None? && o.value.Record? && |o.value.fields| == |t.fields| &&
      (forall m :: 0 <= m < |views| && views[m].index < |t.fields| ==>
        o.value.fields[views[m].index] ==
          if HasKey(entries, Str(views[m].tag.name))
          then SetTo(t.fields[views[m].index], FieldConv(c, tagName, entries, views[m]).value)
          else t.fields[views[m].index])
  {
    var views := Fields(t.st, tagName);
    FieldsSpec(t.st, tagName);
    var convs := KeyedConvs(c, tagName, bound, TString, entries, views);
    forall m | 0 <= m < |views|
      ensures convs[m] == (Done(Str(views[m].tag.name)),
        if HasKey(entries, Str(views[m].tag.name)) then Some(FieldConv(c, tagName, entries, views[m])) else None)
    {
      StringKeyed(c, tagName, bound, entries, views[m]);
    }
    StoreFieldsSets(convs, views, 0, t);
    forall m | 0 <= m < |views| && views[m].index < |t.fields| && !HasKey(entries, Str(views[m].tag.name))
      ensures StoreFields(convs, views, 0, t).value.fields[views[m].index] == t.fields[views[m].index]
    {
      StoreFieldsUntouched(convs, views, 0, t, views[m].index);
    }
  }

  /**
   * A `map[string]...` into a struct: the struct field listed under name
   * `n` takes the converted value of key `n`, and a field whose name is no
   * key keeps its value.
   */
  lemma MapIntoStruct(c: Codec, tagName: string, s: Value, t: Value)
    requires s.Map? && s.key == TString && t.Record?
    requires forall m :: 0 <= m < |Fields(t.st, tagName)| && HasKey(s.entries, Str(Fields(t.st, tagName)[m].tag.name)) ==>
      FieldConv(c, tagName, s.entries, Fields(t.st, tagName)[m]).error.None?
    ensures var o := Conv(c, tagName, s, t); var views := Fields(t.st, tagName);
      o.error.None? && o.value.Record? && |o.value.fields| == |t.fields| &&
      (forall m :: 0 <= m < |views| && views[m].index < |t.fields| ==>
        o.value.fields[views[m].index] ==
          if HasKey(s.entries, Str(views[m].tag.name))
          then SetTo(t.fields[views[m].index], FieldConv(c, tagName, s.entries, views[m]).value)
          else t.fields[views[m].index])
  {
    var views := Fields(t.st, tagName);
    assert forall m :: 0 <= m < |s.entries| ==> Depth(s.entries[m].1) < Depth(s);
    StringKeysStored(c, tagName, Depth(s), s.entries, t);
    assert Conv(c, tagName, s, t) == StoreFields(KeyedConvs(c, tagName, Depth(s), TString, s.entries, views), views, 0, t);
  }

  // ---------------------------------------------------------------------
  // Pointers and interfaces

  /**
   * A nil pointer target is allocated only when the conversion into a fresh
   * pointee succeeds; on an error it stays nil.
   */
  lemma NilPointerAllocated(c: Codec, tagName: string, s: Value, e: Type)
    requires !s.Absent? && TypeOf(s) != TPtr(e) && !e.TPtr?
    ensures var inner := Conv(c, tagName, Elem(s), Zero(e));
      Conv(c, tagName, s, Ptr(e, None)) ==
        if inner.error.Some? then Outcome(Ptr(e, None), inner.error) else Done(Ptr(e, Some(inner.value)))
  {
  }

  /** Anything but a nil into an empty `interface{}` is held by it. */
  lemma EmptyInterfaceHolds(c: Codec, tagName: string, s: Value)
    requires !s.Absent? && !s.Dyn?
    ensures Conv(c, tagName, s, Dyn(None)) == Done(Dyn(Some(s)))
  {
  }

  // ---------------------------------------------------------------------
  // Set

  const OrderType := StructType("Order", [FieldDecl("ID", true, map[FieldKey := "order_id"], TString)], {})
  const OrderItemType := StructType("OrderItem", [FieldDecl("OrderID", true, map[FieldKey := "order_id"], TString)], {})

  /** The one field of each type is listed under the name "order_id". */
  lemma OrderFields()
    ensures Fields(OrderType, FieldKey) == [FieldView(0, "ID", Tag(FieldKey, "order_id", []), TString)]
    ensures Fields(OrderItemType, FieldKey) == [FieldView(0, "OrderID", Tag(FieldKey, "order_id", []), TString)]
  {
    assert ',' !in "order_id";
    FreeOfHead("order_id", ",");
    SplitNoSeparator("order_id", ",");
    assert ParseTag(FieldKey, "order_id") == Some(Tag(FieldKey, "order_id", []));
    assert FieldsFrom(OrderType, FieldKey, 1) == [];
    assert FieldsFrom(OrderItemType, FieldKey, 1) == [];
  }

  /** `Struct.Map` of an order holds its ID under "order_id". */
  lemma OrderTree(id: string)
    ensures TreeOf(Record(OrderType, [Str(id)]), FieldKey) == [(Str("order_id"), Dyn(Some(Str(id))))]
  {
    var source := Record(OrderType, [Str(id)]);
    var tree := [(Str("order_id"), Dyn(Some(Str(id))))];
    var views := Fields(OrderType, FieldKey);
    OrderFields();
    assert !HasOption(views[0].tag, "omitempty");
    assert FieldAt(source, 0) == Str(id);
    assert Put([], Str("order_id"), Store(TIface, Str(id))) == tree;
    assert AddField([], source, FieldKey, views[0]) == tree;
    assert Flatten(tree, source, FieldKey, views, 1) == tree;
    assert Flatten([], source, FieldKey, views, 0) == tree;
  }

  /** `Set(&Order{ID: "0000123"}, &OrderItem{})` copies the ID through the shared field name. */
  lemma SetCopiesByFieldName(c: Codec)
    ensures Set(c, Ptr(TStruct(OrderType), Some(Record(OrderType, [Str("0000123")]))),
                   Ptr(TStruct(OrderItemType), Some(Record(OrderItemType, [Str("")]))))
         == Done(Ptr(TStruct(OrderItemType), Some(Record(OrderItemType, [Str("0000123")]))))
  {
    var source := Record(OrderType, [Str("0000123")]);
    var target := Record(OrderItemType, [Str("")]);
    var filled := Record(OrderItemType, [Str("0000123")]);
    ConvertOrder(c, "0000123", "");
    assert Conv(c, FieldKey, source, target) == Done(filled);
    assert Check("source", Ptr(TStruct(OrderType), Some(source))) == Ok(source);
    assert Check("target", Ptr(TStruct(OrderItemType), Some(target))) == Ok(target);
  }

  /** The field views of an order item. */
  const OrderItemViews := [FieldView(0, "OrderID", Tag(FieldKey, "order_id", []), TString)]

  /** An order's tree gives an order item's only field its ID. */
  lemma OrderItemKeyed(c: Codec, id: string, bound: nat)
    requires bound >= 1
    ensures KeyedConvs(c, FieldKey, bound, TString, [(Str("order_id"), Dyn(Some(Str(id))))], OrderItemViews)
         == [(Done(Str("order_id")), Some(Done(Str(id))))]
  {
    var tree := [(Str("order_id"), Dyn(Some(Str(id))))];
    StringKeyed(c, FieldKey, bound, tree, OrderItemViews[0]);
    assert Get(tree, Str("order_id")) == Some(Dyn(Some(Str(id))));
    NameKey(c, FieldKey, id);
  }

  /** Storing an order's ID into an order item. */
  lemma OrderStored(id: string, old_id: string)
    ensures StoreFields([(Done(Str("order_id")), Some(Done(Str(id))))], OrderItemViews, 0, Record(OrderItemType, [Str(old_id)]))
         == Done(Record(OrderItemType, [Str(id)]))
  {
    var target := Record(OrderItemType, [Str(old_id)]);
    var filled := Record(OrderItemType, [Str(id)]);
    var convs := [(Done(Str("order_id")), Some(Done(Str(id))))];
    assert SetField(target, 0, Str(id)) == filled;
    assert StoreFields(convs, OrderItemViews, 1, filled) == Done(filled);
  }

  /** An order converts into an order item by the shared field name. */
  lemma ConvertOrder(c: Codec, id: string, old_id: string)
    ensures Conv(c, FieldKey, Record(OrderType, [Str(id)]), Record(OrderItemType, [Str(old_id)]))
         == Done(Record(OrderItemType, [Str(id)]))
  {
    var source := Record(OrderType, [Str(id)]);
    var target := Record(OrderItemType, [Str(old_id)]);
    OrderFields();
    OrderTree(id);
    OrderItemKeyed(c, id, Depth(source));
    OrderStored(id, old_id);
    assert Conv(c, FieldKey, source, target) == ToStruct(c, FieldKey, source, target);
  }
}
