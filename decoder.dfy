/**
 * The decoder (decoder.go): walks the fields of the struct a pointer points
 * to, in declaration order, asks a provider for each field's raw value and
 * converts it into the field. A squashed field ("~") is decoded in place
 * from the same provider without asking for a value of its own. The first
 * error stops the walk; the writes already made stay.
 *
 * The providers are the five of the library: path parameters, the query,
 * headers, cookies and the `default` tag literals of `SetDefault`.
 */
module Decoders {
  import opened Wrappers
  import opened Values
  import opened Errors
  import opened Tags
  import opened Payloads
  import opened Contexts
  import opened Records
  import opened Converters
  import PathParams
  import QueryParams
  import HeaderParams
  import CookieParams

  /** What Go's reflection panics with when a value held in an interface is written. */
  const Unaddressable := "reflect: reflect.Value.Set using unaddressable value"

  /** What `Struct.Fields` panics with when the decoded value is not a struct. */
  const NotAStruct := "reflect: NumField of non-struct type"

  // ---------------------------------------------------------------------
  // The providers

  /**
   * `canUnmarshalText`, used by the query provider: the type, or the struct
   * a pointer type points to, implements `encoding.TextUnmarshaler`.
   */
  predicate UnmarshalsText(t: Type) {
    match t
    case TStruct(st) => TextUnmarshaler in st.caps
    case TPtr(TStruct(st)) => TextUnmarshaler in st.caps
    case _ => false
  }

  /**
   * `DefaultProvider.Value`: nothing for a field that is already set; the
   * tag's literal as a string for a type with a text or scan codec and for
   * scalars; the literal as a `json.RawMessage` for maps, structs, arrays and
   * slices (looking through one pointer).
   */
  function DefaultValue(tag: Tag, ty: Type, isZero: bool): (p: Payload)
    ensures p.Nothing? <==> !isZero
    ensures p.Text? ==> p.s == tag.name
    ensures p.Json? ==> p.text == tag.name
    ensures p.Json? <==>
      isZero && !Convertable(ty) && KindOf(if ty.TPtr? then ty.elem else ty) in {KMap, KStruct, KArray, KSlice}
  {
    if !isZero then Nothing
    else if Convertable(ty) then Text(tag.name)
    else
      var kind := if ty.TPtr? then KindOf(ty.elem) else KindOf(ty);
      if kind in {KMap, KStruct, KArray, KSlice} then Json(tag.name) else Text(tag.name)
  }

  /** The provider a decoder asks for each field's raw value. */
  datatype Source =
    | PathSource(path: PathParams.PathProvider)
    | QuerySource(query: QueryParams.QueryProvider)
    | HeaderSource(header: HeaderParams.HeaderProvider)
    | CookieSource(cookie: CookieParams.CookieProvider)
    | Defaults
  {
    /** Whether this provider reads a target of type `t` as one string for its codec. */
    predicate ReadsText(t: Type) {
      match this
      case PathSource(_) => Convertable(t)
      case QuerySource(_) => UnmarshalsText(t)
      case _ => false
    }

    /** `ValueProvider.Value` of the provider, for a field whose context holds `ctx.ty`. */
    method Value(ctx: Context) returns (r: Result<Payload, Error>)
      requires ctx.shape == ShapeOf(ctx.ty) && ctx.codec == ReadsText(ctx.ty)
      modifies ctx
      ensures r == Provided(this, ctx.ty, ctx.isZero, old(ctx.tag))
    {
      match this {
        case PathSource(p) => r := p.Value(ctx);
        case QuerySource(q) => r := q.Value(ctx);
        case HeaderSource(h) => r := h.Value(ctx);
        case CookieSource(k) => r := k.Value(ctx);
        case Defaults => r := Ok(DefaultValue(ctx.tag, ctx.ty, ctx.isZero));
      }
    }
  }

  /**
   * What provider `src` returns for a field of type `ty` with tag `tag`:
   * each provider's reading after its own option defaults; the default
   * provider never fails and has nothing exactly for a field that is set.
   */
  function Provided(src: Source, ty: Type, isZero: bool, tag: Tag): (r: Result<Payload, Error>)
    ensures src.Defaults? ==> r.Ok? && (r.value.Nothing? <==> !isZero)
    ensures src.QuerySource? && UnmarshalsText(ty) ==>
      r == QueryParams.Scalar(QueryParams.ValuesOf(src.query.query, tag.name), QueryParams.WithDefaults(tag))
  {
    match src
    case PathSource(p) => PathParams.Decoded(p.params, PathParams.WithDefaults(tag), ShapeOf(ty), Convertable(ty))
    case QuerySource(q) => QueryParams.Decoded(q, QueryParams.WithDefaults(tag), ShapeOf(ty), UnmarshalsText(ty))
    case HeaderSource(h) => HeaderParams.Decoded(h.header, HeaderParams.WithDefaults(tag), ShapeOf(ty))
    case CookieSource(k) => CookieParams.Decoded(k.cookies, CookieParams.WithDefaults(tag, ShapeOf(ty)), ShapeOf(ty))
    case Defaults => Ok(DefaultValue(tag, ty, isZero))
  }

  // ---------------------------------------------------------------------
  // Decoder.decode

  /** The struct a squashed field of type `t` is decoded as: a struct, or the struct a pointer points to. */
  function SquashedStruct(t: Type): Option<StructType> {
    match t
    case TStruct(st) => Some(st)
    case TPtr(TStruct(st)) => Some(st)
    case _ => None
  }

  /** A listed field's type is shallower than its struct's, and so is the struct it squashes. */
  lemma FieldDepth(st: StructType, tagName: string, i: nat)
    requires i < |Fields(st, tagName)|
    ensures SquashedStruct(Fields(st, tagName)[i].ty).Some? ==>
      TDepth(TStruct(SquashedStruct(Fields(st, tagName)[i].ty).value)) < TDepth(TStruct(st))
  {
    FieldsSpec(st, tagName);
    var f := Fields(st, tagName)[i];
    assert f.ty == st.fields[f.index].ty;
    assert TDepth(f.ty) <= MaxTDepth(TStruct(st), st.fields);
  }

  /**
   * What decoding one field leaves: after an error, the writes made through
   * a non-zero field (which the target aliases) stay and a fresh target is
   * dropped; after success, `set` stores the target into the field.
   */
  function WriteBack(r: Value, index: nat, fv: Value, conv: Outcome): (o: Outcome)
    requires r.Record?
    ensures o.value.Record? && o.value.st == r.st && |o.value.fields| == |r.fields|
    ensures forall j :: 0 <= j < |r.fields| && j != index ==> o.value.fields[j] == r.fields[j]
    ensures o.error.Some? && (IsZero(fv) || conv.error.None?) ==> o.value == r
    ensures o.error.None? <==> conv.error.None? && Assign(TypeOf(fv), conv.value).Some?
  {
    if conv.error.Some? then Outcome(if IsZero(fv) then r else SetField(r, index, conv.value), conv.error)
    else if Assign(TypeOf(fv), conv.value).None? then Fail(r, Mismatch(conv.value, fv))
    else Done(SetField(r, index, conv.value))
  }

  /**
   * One turn of `decode`'s loop, on field `views[i]` of record `r`: the
   * record afterwards and the error that stops the loop, if any. A squashed
   * field holding a struct is decoded recursively, without asking the
   * provider; any other field is read from the provider and converted into
   * `refer` of the field: the field itself when it is non-zero, a fresh zero
   * value otherwise (a JSON literal is first decoded when `decodeJson` is
   * set). An interface field holding a value cannot be written and panics.
   */
  function FieldStep(d: Decoder, r: Value, views: seq<FieldView>, i: nat): (o: Outcome)
    requires r.Record? && views == Fields(r.st, d.tagName) && i < |views|
    ensures o.value.Record? && o.value.st == r.st && |o.value.fields| == |r.fields|
    ensures forall j :: 0 <= j < |r.fields| && j != views[i].index ==> o.value.fields[j] == r.fields[j]
    ensures o.error.Some? && IsZero(FieldAt(r, views[i].index)) ==> o.value == r
    decreases TDepth(TStruct(r.st)), |views| - i, 0
  {
    var f := views[i];
    var fv := FieldAt(r, f.index);
    var target := Refer(fv);
    if f.tag.name == SquashName then
      if fv.Dyn? && fv.held.Some? then Fail(r, Panic(Unaddressable))
      else
        var inner :=
          if target.Record? && SquashedStruct(f.ty) == Some(target.st) then
            FieldDepth(r.st, d.tagName, i);
            DecodeFields(d, target, Fields(target.st, d.tagName), 0)
          else Done(target);
        WriteBack(r, f.index, fv, inner)
    else
      match Provided(d.source, TypeOf(target), IsZero(fv), f.tag)
      case Err(e) => Fail(r, e)
      case Ok(p) =>
        if d.skipNothing && p.Nothing? then Done(r)
        else if fv.Dyn? && fv.held.Some? then Fail(r, Panic(Unaddressable))
        else if d.decodeJson && p.Json? then
          match d.codec.unmarshalJson(TypeOf(target), p.text)
          case Err(e) => Fail(r, e)
          case Ok(v) => WriteBack(r, f.index, fv, Conv(d.codec, d.tagName, v, target))
        else WriteBack(r, f.index, fv, Conv(d.codec, d.tagName, ToValue(p), target))
  }

  /** `decode` from field `views[i]` of record `r` on: field by field, stopping at the first error. */
  function DecodeFields(d: Decoder, r: Value, views: seq<FieldView>, i: nat): (o: Outcome)
    requires r.Record? && views == Fields(r.st, d.tagName) && i <= |views|
    ensures o.value.Record? && o.value.st == r.st && |o.value.fields| == |r.fields|
    decreases TDepth(TStruct(r.st)), |views| - i, 1
  {
    if i == |views| then Done(r)
    else
      var next := FieldStep(d, r, views, i);
      if next.error.Some? then next else DecodeFields(d, next.value, views, i + 1)
  }

  /**
   * `Decoder.Decode`: the target must be a non-nil pointer, checked before
   * any field is touched, and must point to a struct; the outcome's value is
   * the pointer to the decoded struct.
   */
  function Decoded(d: Decoder, v: Value): (o: Outcome)
    ensures TypeOf(o.value) == TypeOf(v)
    ensures !(v.Ptr? && v.target.Some?) ==> o.value == v && o.error.Some?
    ensures v.Ptr? && v.target.Some? && !v.target.value.Record? ==> o == Fail(v, Panic(NotAStruct))
  {
    match Check("target", v)
    case Err(e) => Fail(v, e)
    case Ok(target) =>
      if !target.Record? then Fail(v, Panic(NotAStruct))
      else
        var o := DecodeFields(d, target, Fields(target.st, d.tagName), 0);
        Outcome(Ptr(v.pointee, Some(o.value)), o.error)
  }

  // ---------------------------------------------------------------------
  // SetDefault

  /**
   * The decoder `SetDefault` builds as the source writes it: tag key and
   * converter key "default", the default provider, and a provider's nil
   * passed on to the converter, which resets the field to zero.
   */
  function DefaultDecoderAsWritten(c: Codec): (d: Decoder)
    ensures d.tagName == DefaultKey && d.source.Defaults? && !d.skipNothing && !d.decodeJson
  {
    Decoder(DefaultKey, Defaults, c, false, false)
  }

  /**
   * The decoder `SetDefault` is meant to build: the same, except that a field
   * the default provider has nothing for, because it is already set, is left
   * alone, and a JSON literal is decoded with `json.Unmarshal` into a fresh
   * value of the field's type before it is converted.
   */
  function DefaultDecoder(c: Codec): (d: Decoder)
    ensures d.tagName == DefaultKey && d.source.Defaults? && d.skipNothing && d.decodeJson
  {
    Decoder(DefaultKey, Defaults, c, true, true)
  }

  /**
   * `SetDefault`: decodes the struct `v` points to from its "default" tags,
   * with the decoder as written.
   */
  function SetDefault(c: Codec, v: Value): (o: Outcome)
    ensures TypeOf(o.value) == TypeOf(v)
    ensures !(v.Ptr? && v.target.Some?) ==> o.value == v && o.error.Some?
  {
    Decoded(DefaultDecoderAsWritten(c), v)
  }

  /**
   * `SetDefault` as intended: only the zero fields are filled from their
   * "default" tags, and JSON literals are decoded as JSON.
   */
  function SetDefaultCorrected(c: Codec, v: Value): (o: Outcome)
    ensures TypeOf(o.value) == TypeOf(v)
    ensures !(v.Ptr? && v.target.Some?) ==> o.value == v && o.error.Some?
  {
    Decoded(DefaultDecoder(c), v)
  }

  /**
   * A decoder: the tag key it reads field names from (its converter uses the
   * same key), its provider, the program's text methods, whether a field
   * the provider has nothing for is left alone (`skipNothing`) rather than
   * reset by the converter, and whether a `json.RawMessage` from the provider
   * is decoded as JSON (`decodeJson`) rather than handed to the converter.
   */
  datatype Decoder = Decoder(tagName: string, source: Source, codec: Codec, skipNothing: bool, decodeJson: bool)
  {
    /** `Decode`. */
    method Decode(v: Value) returns (o: Outcome)
      ensures o == Decoded(this, v)
    {
      var checked := Check("target", v);
      if checked.Err? {
        return Fail(v, checked.error);
      }
      var target := checked.value;
      if !target.Record? {
        return Fail(v, Panic(NotAStruct));
      }
      var inner := DecodeStruct(target);
      o := Outcome(Ptr(v.pointee, Some(inner.value)), inner.error);
    }

    /** `decode`: the loop over the fields. */
    method DecodeStruct(r: Value) returns (o: Outcome)
      requires r.Record?
      ensures o == DecodeFields(this, r, Fields(r.st, tagName), 0)
      decreases TDepth(TStruct(r.st)), 1
    {
      var fields := ListFields(r.st, tagName);
      var cur := r;
      var i := 0;
      while i < |fields|
        invariant i <= |fields| && cur.Record? && cur.st == r.st
        invariant DecodeFields(this, cur, fields, i) == DecodeFields(this, r, fields, 0)
        decreases |fields| - i
      {
        var next := DecodeField(cur, fields, i);
        if next.error.Some? {
          return next;
        }
        cur := next.value;
        i := i + 1;
      }
      o := Done(cur);
    }

    /** The body of `decode`'s loop for field `fields[i]`, recursing into a squashed struct. */
    method DecodeField(r: Value, fields: seq<FieldView>, i: nat) returns (o: Outcome)
      requires r.Record? && fields == Fields(r.st, tagName) && i < |fields|
      ensures o == FieldStep(this, r, fields, i)
      decreases TDepth(TStruct(r.st)), 0
    {
      var f := fields[i];
      var fv := FieldAt(r, f.index);
      var target := Refer(fv);
      if f.tag.name == SquashName {
        if fv.Dyn? && fv.held.Some? {
          return Fail(r, Panic(Unaddressable));
        }
        var inner := Done(target);
        if target.Record? && SquashedStruct(f.ty) == Some(target.st) {
          FieldDepth(r.st, tagName, i);
          inner := DecodeStruct(target);
        }
        return WriteBack(r, f.index, fv, inner);
      }
      var ctx := new Context(f.name, TypeOf(target), IsZero(fv), ShapeOf(TypeOf(target)),
                             source.ReadsText(TypeOf(target)), f.tag);
      var value := source.Value(ctx);
      if value.Err? {
        return Fail(r, value.error);
      }
      if skipNothing && value.value.Nothing? {
        return Done(r);
      }
      if fv.Dyn? && fv.held.Some? {
        return Fail(r, Panic(Unaddressable));
      }
      if decodeJson && value.value.Json? {
        var decoded := codec.unmarshalJson(TypeOf(target), value.value.text);
        if decoded.Err? {
          return Fail(r, decoded.error);
        }
        var fromJson := Converter(tagName, codec).ConvertValue(decoded.value, target);
        return WriteBack(r, f.index, fv, fromJson);
      }
      var conv := Converter(tagName, codec).ConvertValue(ToValue(value.value), target);
      o := WriteBack(r, f.index, fv, conv);
    }
  }
}
