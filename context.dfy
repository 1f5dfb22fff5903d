/**
 * The per-field context a decoder hands to its provider (decoder.go): the
 * field's name, its type, whether it is zero, and its tag, which a provider
 * may extend with default options. The style option names live here too.
 *
 * Two facts a provider needs about the target type are carried as explicit
 * inputs: its `Shape` (scalar, list or map) and whether it has a text or
 * scan codec.
 */
module Contexts {
  import opened Values
  import opened Tags

  const Simple := "simple"
  const Form := "form"
  const Label := "label"
  const Matrix := "matrix"
  const Explode := "explode"
  const DeepObject := "deep-object"
  const SpaceDelimited := "space-delimited"
  const PipeDelimited := "pipe-delimited"

  /** The three shapes of value a provider can produce. */
  datatype Shape = ScalarShape | ArrayShape | MapShape

  /** The shape the providers choose for a target kind: maps and structs, arrays and slices, the rest. */
  function ShapeOf(t: Type): (s: Shape)
    ensures s == MapShape <==> KindOf(t) in {KMap, KStruct}
    ensures s == ArrayShape <==> KindOf(t) in {KArray, KSlice}
  {
    match KindOf(t)
    case KMap => MapShape
    case KStruct => MapShape
    case KArray => ArrayShape
    case KSlice => ArrayShape
    case _ => ScalarShape
  }

  /**
   * `convertable`: the type, or a pointer to it, implements
   * `encoding.TextUnmarshaler` or `sql.Scanner`. Methods are recorded on
   * struct types, so this looks through one pointer to a struct.
   */
  predicate Convertable(t: Type) {
    match t
    case TStruct(st) => TextUnmarshaler in st.caps || Scanner in st.caps
    case TPtr(TStruct(st)) => TextUnmarshaler in st.caps || Scanner in st.caps
    case _ => false
  }

  class Context {
    const field: string
    const ty: Type
    const isZero: bool
    /** The target's shape, fixed by the decoder from `ty`. */
    const shape: Shape
    /** Whether the target decodes itself from text. */
    const codec: bool
    var tag: Tag

    constructor (field: string, ty: Type, isZero: bool, shape: Shape, codec: bool, tag: Tag)
      ensures this.field == field && this.ty == ty && this.isZero == isZero
      ensures this.shape == shape && this.codec == codec && this.tag == tag
    {
      this.field := field;
      this.ty := ty;
      this.isZero := isZero;
      this.shape := shape;
      this.codec := codec;
      this.tag := tag;
    }

    /** `Tag.AddOption`: appends one option, keeping the key, the name and the earlier options. */
    method AddOption(opt: string)
      modifies this
      ensures tag == old(tag).(options := old(tag).options + [opt])
    {
      tag := tag.(options := tag.options + [opt]);
    }
  }
}
