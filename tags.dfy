/**
 * Struct tags (common.go): parsing a tag literal into a name and options,
 * case-insensitive option lookup, and the listing of a struct's fields as
 * the library sees them.
 */
module Tags {
  import opened Wrappers
  import opened Strings
  import opened Values

  /** A parsed tag: the key it was read under, the name and the options. */
  datatype Tag = Tag(key: string, name: string, options: seq<string>)

  const DefaultKey := "default"

  /**
   * `ParseTag`: under the key "default" the whole literal is the name;
   * otherwise the literal is split at commas into the name and the options.
   * The result is never nil: `Split` always yields at least one part.
   */
  function ParseTag(key: string, literal: string): (r: Option<Tag>)
    ensures r.Some? && r.value.key == key
    ensures key == DefaultKey ==> r.value == Tag(key, literal, [])
    ensures key != DefaultKey ==> Join([r.value.name] + r.value.options, ",") == literal
  {
    if key == DefaultKey then Some(Tag(key, literal, []))
    else
      var parts := Split(literal, ",");
      JoinSplit(literal, ",");
      if |parts| == 0 then None
      else
        var options := if |parts| > 1 then parts[1..] else [];
        assert [parts[0]] + options == parts;
        Some(Tag(key, parts[0], options))
  }

  /** Whether some option equals `opt` ignoring case. */
  function HasOptionIn(options: seq<string>, opt: string): (r: bool)
    ensures r <==> exists i :: 0 <= i < |options| && EqualFold(opt, options[i])
  {
    if options == [] then false
    else if EqualFold(opt, options[0]) then true
    else
      var r := HasOptionIn(options[1..], opt);
      assert (exists i :: 0 <= i < |options| && EqualFold(opt, options[i])) ==> r by {
        if exists i :: 0 <= i < |options| && EqualFold(opt, options[i]) {
          var i :| 0 <= i < |options| && EqualFold(opt, options[i]);
          assert i > 0 && options[1..][i - 1] == options[i];
        }
      }
      assert r ==> exists i :: 0 <= i < |options| && EqualFold(opt, options[i]) by {
        if r {
          var i :| 0 <= i < |options[1..]| && EqualFold(opt, options[1..][i]);
          assert options[i + 1] == options[1..][i];
        }
      }
      r
  }

  /** `Tag.HasOption`. */
  function HasOption(tag: Tag, opt: string): bool {
    HasOptionIn(tag.options, opt)
  }

  /** After `AddOption(o)` an option is present iff it was before or it matches `o`. */
  lemma HasOptionAppend(tag: Tag, o: string, x: string)
    ensures HasOption(tag.(options := tag.options + [o]), x) <==> HasOption(tag, x) || EqualFold(x, o)
  {
    var opts := tag.options + [o];
    assert opts[|tag.options|] == o;
    assert forall i :: 0 <= i < |tag.options| ==> opts[i] == tag.options[i];
  }

  // ---------------------------------------------------------------------
  // Struct.Fields

  /** What `Struct.Fields` keeps of one declared field. */
  datatype FieldView = FieldView(index: nat, name: string, tag: Tag, ty: Type)

  /**
   * The view of field `i` under `tagName`, or None when `Fields` skips it:
   * unexported fields and fields named "-" are skipped; an empty name becomes
   * the declared field name unless the key is "default".
   */
  function ViewOf(st: StructType, tagName: string, i: nat): (r: Option<FieldView>)
    requires i < |st.fields|
    ensures r.Some? <==> st.fields[i].exported && ParseTag(tagName, TagLiteral(st.fields[i], tagName)).value.name != "-"
    ensures r.Some? ==> r.value.index == i && r.value.name == st.fields[i].name && r.value.ty == st.fields[i].ty
    ensures r.Some? ==> r.value.tag.key == tagName
    ensures r.Some? && tagName != DefaultKey && ParseTag(tagName, TagLiteral(st.fields[i], tagName)).value.name == "" ==>
      r.value.tag == ParseTag(tagName, TagLiteral(st.fields[i], tagName)).value.(name := st.fields[i].name)
    ensures r.Some? && (tagName == DefaultKey || ParseTag(tagName, TagLiteral(st.fields[i], tagName)).value.name != "") ==>
      r.value.tag == ParseTag(tagName, TagLiteral(st.fields[i], tagName)).value
  {
    var f := st.fields[i];
    if !f.exported then None
    else
      match ParseTag(tagName, TagLiteral(f, tagName))
      case None => None
      case Some(tag) =>
        if tag.name == "-" then None
        else if tag.key != DefaultKey && tag.name == "" then
          Some(FieldView(i, f.name, tag.(name := f.name), f.ty))
        else Some(FieldView(i, f.name, tag, f.ty))
  }

  /** The views of fields `i..` in declaration order. */
  function FieldsFrom(st: StructType, tagName: string, i: nat): (r: seq<FieldView>)
    requires i <= |st.fields|
    decreases |st.fields| - i
  {
    if i == |st.fields| then []
    else
      match ViewOf(st, tagName, i)
      case None => FieldsFrom(st, tagName, i + 1)
      case Some(v) => [v] + FieldsFrom(st, tagName, i + 1)
  }

  /** `Struct.Fields`: the field views of a struct type, in declaration order. */
  function Fields(st: StructType, tagName: string): seq<FieldView> {
    FieldsFrom(st, tagName, 0)
  }

  /** `Struct.Fields` as the source writes it: an index loop appending to a result. */
  method ListFields(st: StructType, tagName: string) returns (fields: seq<FieldView>)
    ensures fields == Fields(st, tagName)
  {
    fields := [];
    var index := 0;
    while index < |st.fields|
      invariant index <= |st.fields|
      invariant fields + FieldsFrom(st, tagName, index) == Fields(st, tagName)
    {
      var view := ViewOf(st, tagName, index);
      if view.Some? {
        fields := fields + [view.value];
      }
      index := index + 1;
    }
  }

  /** Every listed view is the view of its own index, and the indexes increase. */
  lemma {:induction false} FieldsFromSound(st: StructType, tagName: string, i: nat)
    requires i <= |st.fields|
    ensures forall k :: 0 <= k < |FieldsFrom(st, tagName, i)| ==>
      var v := FieldsFrom(st, tagName, i)[k];
      i <= v.index < |st.fields| && ViewOf(st, tagName, v.index) == Some(v)
    ensures forall k, l :: 0 <= k < l < |FieldsFrom(st, tagName, i)| ==>
      FieldsFrom(st, tagName, i)[k].index < FieldsFrom(st, tagName, i)[l].index
    decreases |st.fields| - i
  {
    if i < |st.fields| {
      FieldsFromSound(st, tagName, i + 1);
    }
  }

  /** Every field that is not skipped is listed. */
  lemma {:induction false} FieldsFromComplete(st: StructType, tagName: string, i: nat, j: nat)
    requires i <= j < |st.fields|
    requires ViewOf(st, tagName, j).Some?
    ensures ViewOf(st, tagName, j).value in FieldsFrom(st, tagName, i)
    decreases j - i
  {
    if i < j {
      FieldsFromComplete(st, tagName, i + 1, j);
    }
  }

  /**
   * `Struct.Fields` lists exactly the exported fields not named "-", in
   * declaration order, each under the name its tag gives it.
   */
  lemma FieldsSpec(st: StructType, tagName: string)
    ensures forall k :: 0 <= k < |Fields(st, tagName)| ==>
      Fields(st, tagName)[k].index < |st.fields| &&
      ViewOf(st, tagName, Fields(st, tagName)[k].index) == Some(Fields(st, tagName)[k])
    ensures forall k, l :: 0 <= k < l < |Fields(st, tagName)| ==>
      Fields(st, tagName)[k].index < Fields(st, tagName)[l].index
    ensures forall j :: 0 <= j < |st.fields| && ViewOf(st, tagName, j).Some? ==>
      ViewOf(st, tagName, j).value in Fields(st, tagName)
  {
    FieldsFromSound(st, tagName, 0);
    forall j | 0 <= j < |st.fields| && ViewOf(st, tagName, j).Some?
      ensures ViewOf(st, tagName, j).value in Fields(st, tagName)
    {
      FieldsFromComplete(st, tagName, 0, j);
    }
  }
}
