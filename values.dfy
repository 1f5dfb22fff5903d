/**
 * The Go values the converter and the decoder work on, as an explicit tagged
 * union in place of `reflect.Value`, together with the type descriptors that
 * play the part of `reflect.Type`.
 *
 * Integers are Go's 64-bit `int` and `uint`; floating-point, channel,
 * function and other kinds the converter has no branch for are `TOther`.
 * `TRaw` is `json.RawMessage`, a byte slice: its values are `Raw(text)`.
 */
module Values {
  import opened Wrappers
  import Numbers

  /** Methods a struct type may implement that the library probes for. */
  datatype Capability = TextMarshaler | TextUnmarshaler | Scanner

  datatype Type =
    | TBool
    | TInt
    | TUint
    | TString
    | TStruct(st: StructType)
    | TMap(key: Type, elem: Type)
    | TSlice(elem: Type)
    | TArray(len: nat, elem: Type)
    | TPtr(elem: Type)
    | TIface
    | TRaw
    | TOther(name: string)

  /** A named struct type: its fields in declaration order and its methods. */
  datatype StructType = StructType(name: string, fields: seq<FieldDecl>, caps: set<Capability>)

  /** One declared struct field with its tag literals, keyed as `reflect.StructTag.Get` reads them. */
  datatype FieldDecl = FieldDecl(name: string, exported: bool, tags: map<string, string>, ty: Type)

  /** `reflect.StructTag.Get`: the literal under `key`, or "" when there is none. */
  function TagLiteral(f: FieldDecl, key: string): string {
    if key in f.tags then f.tags[key] else ""
  }

  /** `reflect.Kind`, already normalised by `kind` (common.go): every integer width is `Int` or `Uint`. */
  datatype Kind = KInvalid | KBool | KInt | KUint | KString | KStruct | KMap | KSlice | KArray | KPtr | KInterface | KOther

  function KindOf(t: Type): Kind {
    match t
    case TBool => KBool
    case TInt => KInt
    case TUint => KUint
    case TString => KString
    case TStruct(_) => KStruct
    case TMap(_, _) => KMap
    case TSlice(_) => KSlice
    case TArray(_, _) => KArray
    case TPtr(_) => KPtr
    case TIface => KInterface
    case TRaw => KSlice
    case TOther(_) => KOther
  }

  datatype Value =
    | Absent                                               // the invalid reflect.Value, e.g. of a nil interface
    | Bool(b: bool)
    | Int(i: int)
    | Uint(u: nat)
    | Str(s: string)
    | Slice(elem: Type, items: seq<Value>, isNil: bool)
    | Array(elem: Type, items: seq<Value>)
    | Map(key: Type, elem: Type, entries: seq<(Value, Value)>, isNil: bool)
    | Record(st: StructType, fields: seq<Value>)
    | Ptr(pointee: Type, target: Option<Value>)
    | Dyn(held: Option<Value>)                             // a value of type interface{}
    | Raw(text: string, isNil: bool)                       // a json.RawMessage
    | Opaque(name: string, zero: bool)                     // a value of a kind the model leaves out

  function TypeOf(v: Value): Type {
    match v
    case Absent => TOther("invalid")
    case Bool(_) => TBool
    case Int(_) => TInt
    case Uint(_) => TUint
    case Str(_) => TString
    case Slice(e, _, _) => TSlice(e)
    case Array(e, items) => TArray(|items|, e)
    case Map(k, e, _, _) => TMap(k, e)
    case Record(st, _) => TStruct(st)
    case Ptr(e, _) => TPtr(e)
    case Dyn(_) => TIface
    case Raw(_, _) => TRaw
    case Opaque(n, _) => TOther(n)
  }

  function KindOfValue(v: Value): Kind {
    if v.Absent? then KInvalid else KindOf(TypeOf(v))
  }

  // ---------------------------------------------------------------------
  // Well-formedness: what Go's type system guarantees of every value.

  predicate WellTyped(v: Value) {
    match v
    case Absent => true
    case Int(i) => Numbers.IsInt64(i)
    case Uint(u) => Numbers.IsUint64(u)
    case Slice(e, items, isNil) =>
      (isNil ==> items == []) &&
      forall i :: 0 <= i < |items| ==> WellTyped(items[i]) && TypeOf(items[i]) == e
    case Array(e, items) =>
      forall i :: 0 <= i < |items| ==> WellTyped(items[i]) && TypeOf(items[i]) == e
    case Map(k, e, entries, isNil) =>
      (isNil ==> entries == []) &&
      (forall i, j :: 0 <= i < j < |entries| ==> entries[i].0 != entries[j].0) &&
      forall i :: 0 <= i < |entries| ==>
        WellTyped(entries[i].0) && TypeOf(entries[i].0) == k &&
        WellTyped(entries[i].1) && TypeOf(entries[i].1) == e
    case Record(st, fields) =>
      |fields| == |st.fields| &&
      forall i :: 0 <= i < |fields| ==> WellTyped(fields[i]) && TypeOf(fields[i]) == st.fields[i].ty
    case Ptr(e, target) => target.Some? ==> WellTyped(target.value) && TypeOf(target.value) == e
    case Dyn(held) => held.Some? ==> WellTyped(held.value) && !held.value.Absent? && !held.value.Dyn?
    case Raw(text, isNil) => isNil ==> text == ""
    case _ => true
  }

  // ---------------------------------------------------------------------
  // Zero values and the reflect helpers of common.go

  /** `reflect.Zero(t)`. */
  function Zero(t: Type): (z: Value)
    ensures TypeOf(z) == t
    decreases t, 1
  {
    match t
    case TBool => Bool(false)
    case TInt => Int(0)
    case TUint => Uint(0)
    case TString => Str("")
    case TStruct(st) => Record(st, ZeroFields(t, st.fields))
    case TMap(k, e) => Map(k, e, [], true)
    case TSlice(e) => Slice(e, [], true)
    case TArray(n, e) => Array(e, seq(n, _ => Zero(e)))
    case TPtr(e) => Ptr(e, None)
    case TIface => Dyn(None)
    case TRaw => Raw("", true)
    case TOther(n) => Opaque(n, true)
  }

  function ZeroFields(ghost t: Type, fs: seq<FieldDecl>): (zs: seq<Value>)
    requires forall i :: 0 <= i < |fs| ==> fs[i].ty < t
    ensures |zs| == |fs| && forall i :: 0 <= i < |fs| ==> zs[i] == Zero(fs[i].ty)
    decreases t, 0, |fs|
  {
    if fs == [] then [] else [Zero(fs[0].ty)] + ZeroFields(t, fs[1..])
  }

  /** `reflect.Value.IsZero` (and, for the kinds modelled, `Field.IsZero`'s deep comparison with the zero value). */
  predicate IsZero(v: Value) {
    match v
    case Absent => true
    case Bool(b) => !b
    case Int(i) => i == 0
    case Uint(u) => u == 0
    case Str(s) => s == ""
    case Slice(_, _, isNil) => isNil
    case Array(_, items) => forall i :: 0 <= i < |items| ==> IsZero(items[i])
    case Map(_, _, _, isNil) => isNil
    case Record(_, fields) => forall i :: 0 <= i < |fields| ==> IsZero(fields[i])
    case Ptr(_, target) => target.None?
    case Dyn(held) => held.None?
    case Raw(_, isNil) => isNil
    case Opaque(_, zero) => zero
  }

  /** `elem` (common.go): looks through a pointer or an interface; a nil one gives the invalid value. */
  function Elem(v: Value): (r: Value)
    ensures !v.Ptr? && !v.Dyn? ==> r == v
  {
    match v
    case Ptr(_, target) => if target.Some? then target.value else Absent
    case Dyn(held) => if held.Some? then held.value else Absent
    case _ => v
  }

  /** `create` (common.go): a fresh zero value, of the pointee type when `t` is a pointer type. */
  function Create(t: Type): (r: Value)
    ensures !t.TPtr? ==> r == Zero(t)
    ensures t.TPtr? ==> r == Zero(t.elem)
  {
    match t
    case TPtr(e) => Zero(e)
    case _ => Zero(t)
  }

  /** `refer` (common.go): what a field is decoded into. */
  function Refer(v: Value): (r: Value)
    ensures !IsZero(v) ==> r == Elem(v)
    ensures IsZero(v) ==> r == Create(TypeOf(v))
  {
    if !IsZero(v) then Elem(v) else Create(TypeOf(v))
  }

  /** Go's assignability for the types modelled: identical types, or anything into `interface{}`. */
  predicate AssignableTo(from: Type, to: Type) {
    from == to || to == TIface
  }

  /** A value stored into a location of type `t`: boxed when `t` is `interface{}`. */
  function Store(t: Type, v: Value): Value {
    if t == TIface && !v.Dyn? then Dyn(Some(v)) else v
  }

  /**
   * `set` (common.go): tries the value itself, then its pointee (for a
   * pointer) or its address (otherwise), and stores the first candidate
   * assignable to `t`. The model treats every value as addressable.
   */
  function Assign(t: Type, v: Value): (r: Option<Value>)
    ensures AssignableTo(TypeOf(v), t) ==> r == Some(Store(t, v))
    ensures r.Some? && t != TIface ==> TypeOf(r.value) == t
  {
    if AssignableTo(TypeOf(v), t) then Some(Store(t, v))
    else if v.Ptr? then
      (if v.target.Some? && AssignableTo(TypeOf(v.target.value), t) then Some(Store(t, v.target.value)) else None)
    else if AssignableTo(TPtr(TypeOf(v)), t) then Some(Store(t, Ptr(TypeOf(v), Some(v))))
    else None
  }

  // ---------------------------------------------------------------------
  // Sizes used to show that the converter and the decoder terminate.

  /** Nesting depth of a value; pointers and interfaces add nothing. */
  function Depth(v: Value): nat
    decreases v, 1
  {
    match v
    case Slice(_, items, _) => 1 + MaxDepth(v, items)
    case Array(_, items) => 1 + MaxDepth(v, items)
    case Map(_, _, entries, _) => 1 + MaxEntryDepth(v, entries)
    case Record(_, fields) => 1 + MaxDepth(v, fields)
    case Ptr(_, target) => if target.Some? then Depth(target.value) else 0
    case Dyn(held) => if held.Some? then Depth(held.value) else 0
    case Raw(_, _) => 1
    case _ => 0
  }

  function MaxDepth(ghost v: Value, vs: seq<Value>): (r: nat)
    requires forall i :: 0 <= i < |vs| ==> vs[i] < v
    ensures forall i :: 0 <= i < |vs| ==> Depth(vs[i]) <= r
    decreases v, 0, |vs|
  {
    if vs == [] then 0
    else
      var rest := MaxDepth(v, vs[1..]);
      assert forall i :: 1 <= i < |vs| ==> vs[i] == vs[1..][i - 1];
      if Depth(vs[0]) > rest then Depth(vs[0]) else rest
  }

  function MaxEntryDepth(ghost v: Value, es: seq<(Value, Value)>): (r: nat)
    requires forall i :: 0 <= i < |es| ==> es[i].0 < v && es[i].1 < v
    ensures forall i :: 0 <= i < |es| ==> Depth(es[i].0) <= r && Depth(es[i].1) <= r
    decreases v, 0, |es|
  {
    if es == [] then 0
    else
      var rest := MaxEntryDepth(v, es[1..]);
      assert forall i :: 1 <= i < |es| ==> es[i] == es[1..][i - 1];
      var here := if Depth(es[0].0) > Depth(es[0].1) then Depth(es[0].0) else Depth(es[0].1);
      if here > rest then here else rest
  }

  /** How many pointers and interfaces wrap a value before its contents. */
  function Ext(v: Value): nat {
    match v
    case Ptr(_, target) => if target.Some? then 1 + Ext(target.value) else 0
    case Dyn(held) => if held.Some? then 1 else 0
    case _ => 0
  }

  /** Nesting depth of a type. */
  function TDepth(t: Type): nat
    decreases t, 1
  {
    match t
    case TStruct(st) => 1 + MaxTDepth(t, st.fields)
    case TMap(k, e) => 1 + (if TDepth(k) > TDepth(e) then TDepth(k) else TDepth(e))
    case TSlice(e) => 1 + TDepth(e)
    case TArray(_, e) => 1 + TDepth(e)
    case TPtr(e) => 1 + TDepth(e)
    case TRaw => 1
    case _ => 0
  }

  function MaxTDepth(ghost t: Type, fs: seq<FieldDecl>): (r: nat)
    requires forall i :: 0 <= i < |fs| ==> fs[i].ty < t
    ensures forall i :: 0 <= i < |fs| ==> TDepth(fs[i].ty) <= r
    decreases t, 0, |fs|
  {
    if fs == [] then 0
    else
      var rest := MaxTDepth(t, fs[1..]);
      assert forall i :: 1 <= i < |fs| ==> fs[i] == fs[1..][i - 1];
      if TDepth(fs[0].ty) > rest then TDepth(fs[0].ty) else rest
  }

  // ---------------------------------------------------------------------
  // Properties

  /** `Elem` never makes a value deeper. */
  lemma ElemDepth(v: Value)
    ensures Depth(Elem(v)) <= Depth(v)
  {
  }

  /** A freshly created value is wrapped in nothing and its type is no deeper than the requested one. */
  lemma CreateShallow(t: Type)
    ensures Ext(Create(t)) == 0
    ensures TDepth(TypeOf(Create(t))) <= TDepth(t)
    ensures t.TPtr? ==> TDepth(TypeOf(Create(t))) < TDepth(t)
  {
  }

  /** The zero value of a type is zero. */
  lemma {:induction false} ZeroIsZero(t: Type)
    ensures IsZero(Zero(t))
    decreases t, 1
  {
    match t
    case TArray(n, e) =>
      ZeroIsZero(e);
    case TStruct(st) =>
      ZeroFieldsAreZero(t, st.fields);
    case _ =>
  }

  lemma {:induction false} ZeroFieldsAreZero(t: Type, fs: seq<FieldDecl>)
    requires forall i :: 0 <= i < |fs| ==> fs[i].ty < t
    ensures forall i :: 0 <= i < |fs| ==> IsZero(Zero(fs[i].ty))
    decreases t, 0, |fs|
  {
    if fs != [] {
      ZeroIsZero(fs[0].ty);
      ZeroFieldsAreZero(t, fs[1..]);
      assert forall i :: 1 <= i < |fs| ==> fs[i] == fs[1..][i - 1];
    }
  }

  /** `refer` on a zero field gives a fresh zero value. */
  lemma ReferZero(v: Value)
    requires IsZero(v) && !v.Absent?
    ensures IsZero(Refer(v))
  {
    if TypeOf(v).TPtr? { ZeroIsZero(TypeOf(v).elem); } else { ZeroIsZero(TypeOf(v)); }
  }
}
