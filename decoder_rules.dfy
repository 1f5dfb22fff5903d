/**
 * What the decoder promises: which fields a walk may change, where it
 * stops, how a squashed nil pointer is filled, and what `SetDefault` does
 * to fields that are already set.
 */
module DecoderRules {
  import opened Wrappers
  import opened Values
  import opened Errors
  import opened Tags
  import opened Payloads
  import opened Contexts
  import opened Records
  import opened Converters
  import opened Decoders

  // ---------------------------------------------------------------------
  // Which fields change

  /** Fields no view from `i` on refers to keep their values. */
  lemma {:induction false} UntouchedFrom(d: Decoder, r: Value, views: seq<FieldView>, i: nat, j: nat)
    requires r.Record? && views == Fields(r.st, d.tagName) && i <= |views| && j < |r.fields|
    requires forall k :: i <= k < |views| ==> views[k].index != j
    ensures DecodeFields(d, r, views, i).value.fields[j] == r.fields[j]
    decreases |views| - i
  {
    if i < |views| {
      var next := FieldStep(d, r, views, i);
      if next.error.None? {
        UntouchedFrom(d, next.value, views, i + 1, j);
      }
    }
  }

  /**
   * Decoding never writes an unexported field or one whose tag name is "-":
   * `Struct.Fields` does not list them.
   */
  lemma SkippedFieldsKept(d: Decoder, r: Value, j: nat)
    requires r.Record? && j < |r.fields| && j < |r.st.fields|
    requires !r.st.fields[j].exported || ParseTag(d.tagName, TagLiteral(r.st.fields[j], d.tagName)).value.name == "-"
    ensures DecodeFields(d, r, Fields(r.st, d.tagName), 0).value.fields[j] == r.fields[j]
  {
    FieldsSpec(r.st, d.tagName);
    UntouchedFrom(d, r, Fields(r.st, d.tagName), 0, j);
  }

  // ---------------------------------------------------------------------
  // Fail fast

  /**
   * The walk stopped at field `views[k]`: every later field is as it was, and
   * so is that field itself when it was zero (its fresh target is dropped).
   */
  predicate StoppedAt(r: Value, out: Value, views: seq<FieldView>, k: nat)
    requires r.Record? && out.Record? && k < |views|
  {
    (forall l :: k < l < |views| ==> FieldAt(out, views[l].index) == FieldAt(r, views[l].index)) &&
    (IsZero(FieldAt(r, views[k].index)) ==> FieldAt(out, views[k].index) == FieldAt(r, views[k].index))
  }

  /** `Struct.Fields` lists fields in increasing index order. */
  lemma IndexesIncrease(st: StructType, tagName: string, a: nat, b: nat)
    requires a < b < |Fields(st, tagName)|
    ensures Fields(st, tagName)[a].index < Fields(st, tagName)[b].index
  {
    FieldsSpec(st, tagName);
  }

  /** A field step that fails leaves the walk stopped at that field. */
  lemma StopsHere(d: Decoder, r: Value, i: nat)
    requires r.Record? && i < |Fields(r.st, d.tagName)|
    requires FieldStep(d, r, Fields(r.st, d.tagName), i).error.Some?
    ensures StoppedAt(r, FieldStep(d, r, Fields(r.st, d.tagName), i).value, Fields(r.st, d.tagName), i)
  {
    var views := Fields(r.st, d.tagName);
    var next := FieldStep(d, r, views, i);
    forall l | i < l < |views|
      ensures FieldAt(next.value, views[l].index) == FieldAt(r, views[l].index)
    {
      IndexesIncrease(r.st, d.tagName, i, l);
    }
  }

  /** A walk stopped at a later field, seen from before a step that did not touch the later fields. */
  lemma StopsLater(d: Decoder, r: Value, i: nat, k: nat, out: Value)
    requires r.Record? && out.Record? && i < k < |Fields(r.st, d.tagName)|
    requires FieldStep(d, r, Fields(r.st, d.tagName), i).error.None?
    requires StoppedAt(FieldStep(d, r, Fields(r.st, d.tagName), i).value, out, Fields(r.st, d.tagName), k)
    ensures StoppedAt(r, out, Fields(r.st, d.tagName), k)
  {
    var views := Fields(r.st, d.tagName);
    var next := FieldStep(d, r, views, i);
    forall l | k <= l < |views|
      ensures FieldAt(next.value, views[l].index) == FieldAt(r, views[l].index)
    {
      IndexesIncrease(r.st, d.tagName, i, l);
    }
  }

  /**
   * Fields are decoded in declaration order and the first error ends the
   * walk: the fields after the one that failed are never written, nor is
   * that one unless the converter was writing through it.
   */
  lemma {:induction false} StopsAtFirstError(d: Decoder, r: Value, i: nat)
    requires r.Record? && i <= |Fields(r.st, d.tagName)|
    ensures var views := Fields(r.st, d.tagName);
      var o := DecodeFields(d, r, views, i);
      o.error.Some? ==> exists k :: i <= k < |views| && StoppedAt(r, o.value, views, k)
    decreases |Fields(r.st, d.tagName)| - i
  {
    var views := Fields(r.st, d.tagName);
    if i < |views| {
      var next := FieldStep(d, r, views, i);
      var o := DecodeFields(d, r, views, i);
      if next.error.Some? {
        assert o == next;
        StopsHere(d, r, i);
      } else if o.error.Some? {
        assert o == DecodeFields(d, next.value, views, i + 1);
        StopsAtFirstError(d, next.value, i + 1);
        var k :| i + 1 <= k < |views| && StoppedAt(next.value, o.value, views, k);
        StopsLater(d, r, i, k, o.value);
      }
    }
  }

  // ---------------------------------------------------------------------
  // Squashed fields

  /**
   * A squashed nil pointer to a struct is given a fresh zero struct, which
   * is decoded from the same provider; the field points to the result only
   * if that nested walk succeeds, and otherwise stays nil and the error is
   * returned.
   */
  lemma SquashedNilPointer(d: Decoder, r: Value, i: nat, s: StructType)
    requires r.Record? && i < |Fields(r.st, d.tagName)|
    requires Fields(r.st, d.tagName)[i].tag.name == SquashName
    requires Fields(r.st, d.tagName)[i].ty == TPtr(TStruct(s))
    requires FieldAt(r, Fields(r.st, d.tagName)[i].index) == Ptr(TStruct(s), None)
    ensures var views := Fields(r.st, d.tagName);
      var inner := DecodeFields(d, Zero(TStruct(s)), Fields(s, d.tagName), 0);
      var o := DecodeFields(d, r, views, i);
      (inner.error.Some? ==> o == Outcome(r, inner.error)) &&
      (inner.error.None? && o.error.None? ==> FieldAt(o.value, views[i].index) == Ptr(TStruct(s), Some(inner.value)))
  {
    var views := Fields(r.st, d.tagName);
    FieldsSpec(r.st, d.tagName);
    var idx := views[i].index;
    var inner := DecodeFields(d, Zero(TStruct(s)), Fields(s, d.tagName), 0);
    var next := FieldStep(d, r, views, i);
    assert idx < |r.fields|;
    assert Refer(r.fields[idx]) == Zero(TStruct(s));
    assert next == WriteBack(r, idx, Ptr(TStruct(s), None), inner);
    if inner.error.None? {
      assert Assign(TPtr(TStruct(s)), inner.value) == Some(Ptr(TStruct(s), Some(inner.value)));
      assert next.value.fields[idx] == Ptr(TStruct(s), Some(inner.value));
      forall k | i + 1 <= k < |views|
        ensures views[k].index != idx
      {
        assert views[i].index < views[k].index;
      }
      UntouchedFrom(d, next.value, views, i + 1, idx);
    }
  }

  // ---------------------------------------------------------------------
  // SetDefault

  /** The corrected default decoder's step on a set, non-squashed field changes nothing. */
  lemma DefaultStepSkips(c: Codec, r: Value, k: nat)
    requires r.Record? && k < |Fields(r.st, DefaultKey)|
    requires Fields(r.st, DefaultKey)[k].tag.name != SquashName
    requires !IsZero(FieldAt(r, Fields(r.st, DefaultKey)[k].index))
    ensures FieldStep(DefaultDecoder(c), r, Fields(r.st, DefaultKey), k) == Done(r)
  {
    var views := Fields(r.st, DefaultKey);
    var fv := FieldAt(r, views[k].index);
    assert Provided(Defaults, TypeOf(Refer(fv)), false, views[k].tag) == Ok(Nothing);
  }

  /**
   * As written, the default decoder's step on a set, non-squashed field
   * that is neither a pointer nor an interface resets it to zero: the
   * provider's nil reaches the converter as the invalid value.
   */
  lemma AsWrittenStepResets(c: Codec, r: Value, k: nat)
    requires r.Record? && k < |Fields(r.st, DefaultKey)|
    requires Fields(r.st, DefaultKey)[k].tag.name != SquashName
    requires Fields(r.st, DefaultKey)[k].index < |r.fields|
    requires var fv := FieldAt(r, Fields(r.st, DefaultKey)[k].index);
      !IsZero(fv) && !fv.Ptr? && !fv.Dyn?
    ensures var index := Fields(r.st, DefaultKey)[k].index;
      var o := FieldStep(DefaultDecoderAsWritten(c), r, Fields(r.st, DefaultKey), k);
      o.error.None? && FieldAt(o.value, index) == Zero(TypeOf(FieldAt(r, index)))
  {
    var views := Fields(r.st, DefaultKey);
    var index := views[k].index;
    var fv := FieldAt(r, index);
    var z := Zero(TypeOf(fv));
    assert Refer(fv) == fv;
    assert Provided(Defaults, TypeOf(fv), false, views[k].tag) == Ok(Nothing);
    assert Conv(c, DefaultKey, Absent, fv) == Done(z);
    assert Assign(TypeOf(fv), z) == Some(z);
  }

  /** No later view refers to the field of view `i`. */
  lemma LaterIndexes(st: StructType, tagName: string, i: nat)
    requires i < |Fields(st, tagName)|
    ensures forall l :: i < l < |Fields(st, tagName)| ==> Fields(st, tagName)[l].index != Fields(st, tagName)[i].index
  {
    forall l | i < l < |Fields(st, tagName)|
      ensures Fields(st, tagName)[l].index != Fields(st, tagName)[i].index
    {
      IndexesIncrease(st, tagName, i, l);
    }
  }

  /** With the corrected `SetDefault` decoder, a set field keeps its value through the rest of the walk. */
  lemma {:induction false} DefaultsKeepFrom(c: Codec, r: Value, i: nat, k: nat)
    requires r.Record? && i <= k < |Fields(r.st, DefaultKey)|
    requires Fields(r.st, DefaultKey)[k].tag.name != SquashName
    requires !IsZero(FieldAt(r, Fields(r.st, DefaultKey)[k].index))
    ensures var views := Fields(r.st, DefaultKey);
      FieldAt(DecodeFields(DefaultDecoder(c), r, views, i).value, views[k].index) == FieldAt(r, views[k].index)
    decreases k - i
  {
    var d := DefaultDecoder(c);
    var views := Fields(r.st, DefaultKey);
    var idx := views[k].index;
    var next := FieldStep(d, r, views, i);
    if i == k {
      DefaultStepSkips(c, r, k);
      if idx < |r.fields| {
        LaterIndexes(r.st, DefaultKey, k);
        UntouchedFrom(d, r, views, i + 1, idx);
      }
    } else {
      IndexesIncrease(r.st, DefaultKey, i, k);
      assert FieldAt(next.value, idx) == FieldAt(r, idx);
      if next.error.None? {
        DefaultsKeepFrom(c, next.value, i + 1, k);
      }
    }
  }

  /**
   * The corrected `SetDefault` never overwrites a field that is already set: every listed,
   * non-squashed field that is non-zero keeps its value.
   */
  lemma SetDefaultKeepsSetFields(c: Codec, v: Value, k: nat)
    requires v.Ptr? && v.target.Some? && v.target.value.Record?
    requires k < |Fields(v.target.value.st, DefaultKey)|
    requires Fields(v.target.value.st, DefaultKey)[k].tag.name != SquashName
    requires !IsZero(FieldAt(v.target.value, Fields(v.target.value.st, DefaultKey)[k].index))
    ensures SetDefaultCorrected(c, v).value.Ptr? && SetDefaultCorrected(c, v).value.target.Some?
    ensures var r := v.target.value;
      var index := Fields(r.st, DefaultKey)[k].index;
      FieldAt(SetDefaultCorrected(c, v).value.target.value, index) == FieldAt(r, index)
  {
    DefaultsKeepFrom(c, v.target.value, 0, k);
  }

  /**
   * A map or struct field without a text codec gets its default literal as
   * a `json.RawMessage`, which the converter cannot turn into a map or a
   * struct: such a default is an error.
   */
  lemma JsonDefaultRefused(c: Codec, tag: Tag, t: Value)
    requires t.Record? || t.Map?
    requires !Convertable(TypeOf(t))
    ensures DefaultValue(tag, TypeOf(t), true) == Json(tag.name)
    ensures Conv(c, DefaultKey, ToValue(Json(tag.name)), t) == Fail(t, CannotConvert(KSlice, KindOf(TypeOf(t))))
  {
  }

  // ---------------------------------------------------------------------
  // The example of decoder_test.go: a string field with a default literal

  const CategoryField := FieldDecl("Category", true, map[DefaultKey := "unknown"], TString)
  const AccountType := StructType("Account", [CategoryField], {})

  function Account(category: string): Value {
    Ptr(TStruct(AccountType), Some(Record(AccountType, [Str(category)])))
  }

  lemma AccountFields()
    ensures Fields(AccountType, DefaultKey) == [FieldView(0, "Category", Tag(DefaultKey, "unknown", []), TString)]
  {
    assert TagLiteral(CategoryField, DefaultKey) == "unknown";
    assert ViewOf(AccountType, DefaultKey, 0) == Some(FieldView(0, "Category", Tag(DefaultKey, "unknown", []), TString));
    assert FieldsFrom(AccountType, DefaultKey, 1) == [];
  }

  /** As written, `SetDefault` resets a set field: `Account{Category: "Jack"}` comes back with an empty category. */
  lemma AsWrittenSetDefaultClears(c: Codec)
    ensures SetDefault(c, Account("Jack")) == Done(Account(""))
  {
    AccountFields();
    var d := DefaultDecoderAsWritten(c);
    var r := Record(AccountType, [Str("Jack")]);
    var views := Fields(AccountType, DefaultKey);
    assert Provided(d.source, TString, false, views[0].tag) == Ok(Nothing);
    assert Conv(c, DefaultKey, Absent, Str("Jack")) == Done(Str(""));
    assert FieldStep(d, r, views, 0) == Done(Record(AccountType, [Str("")]));
    assert DecodeFields(d, r, views, 0) == Done(Record(AccountType, [Str("")]));
  }

  /** The corrected `SetDefault` keeps a category that is set. */
  lemma SetDefaultKeepsCategory(c: Codec)
    ensures SetDefaultCorrected(c, Account("Jack")) == Done(Account("Jack"))
  {
    AccountFields();
    var d := DefaultDecoder(c);
    var views := Fields(AccountType, DefaultKey);
    var kept := Record(AccountType, [Str("Jack")]);
    DefaultStepSkips(c, kept, 0);
    assert DecodeFields(d, kept, views, 0) == Done(kept);
  }

  /** The corrected `SetDefault` fills an empty category from the tag. */
  lemma SetDefaultFillsCategory(c: Codec)
    ensures SetDefaultCorrected(c, Account("")) == Done(Account("unknown"))
  {
    AccountFields();
    var d := DefaultDecoder(c);
    var views := Fields(AccountType, DefaultKey);
    var empty := Record(AccountType, [Str("")]);
    assert Provided(d.source, TString, true, views[0].tag) == Ok(Text("unknown"));
    assert Conv(c, DefaultKey, Str("unknown"), Str("")) == Done(Str("unknown"));
    assert FieldStep(d, empty, views, 0) == Done(Record(AccountType, [Str("unknown")]));
    assert DecodeFields(d, empty, views, 0) == Done(Record(AccountType, [Str("unknown")]));
  }

  // ---------------------------------------------------------------------
  // The full example of decoder_test.go: a category and a user from a JSON literal

  const PeterJson := "{\"name\":\"Peter\"}"
  const UserType := StructType("User", [FieldDecl("Name", true, map["fake" := "name"], TString)], {})
  const UserField := FieldDecl("User", true, map[DefaultKey := PeterJson], TPtr(TStruct(UserType)))
  const FullAccountType := StructType("Account", [CategoryField, UserField], {})

  function User(name: string): Value {
    Record(UserType, [Str(name)])
  }

  /** `&Account{Category: category, User: user}`, with `user` the `*User` pointer's target. */
  function FullAccount(category: string, user: Option<Value>): Value {
    Ptr(TStruct(FullAccountType), Some(Record(FullAccountType, [Str(category), Ptr(TStruct(UserType), user)])))
  }

  lemma FullAccountFields()
    ensures Fields(FullAccountType, DefaultKey) ==
      [FieldView(0, "Category", Tag(DefaultKey, "unknown", []), TString),
       FieldView(1, "User", Tag(DefaultKey, PeterJson, []), TPtr(TStruct(UserType)))]
  {
    assert TagLiteral(CategoryField, DefaultKey) == "unknown";
    assert TagLiteral(UserField, DefaultKey) == PeterJson;
    assert ViewOf(FullAccountType, DefaultKey, 0) == Some(FieldView(0, "Category", Tag(DefaultKey, "unknown", []), TString));
    assert ViewOf(FullAccountType, DefaultKey, 1) == Some(FieldView(1, "User", Tag(DefaultKey, PeterJson, []), TPtr(TStruct(UserType))));
    var user := FieldView(1, "User", Tag(DefaultKey, PeterJson, []), TPtr(TStruct(UserType)));
    assert FieldsFrom(FullAccountType, DefaultKey, 2) == [];
    assert FieldsFrom(FullAccountType, DefaultKey, 1) == [user];
  }

  /** The nil `User` field gets its literal as a `json.RawMessage`, to be converted into a fresh `User`. */
  lemma UserDefault(c: Codec)
    ensures Refer(Ptr(TStruct(UserType), None)) == User("")
    ensures Provided(Defaults, TStruct(UserType), true, Tag(DefaultKey, PeterJson, [])) == Ok(Json(PeterJson))
    ensures Conv(c, DefaultKey, ToValue(Json(PeterJson)), User("")) == Fail(User(""), CannotConvert(KSlice, KStruct))
  {
    assert !Convertable(TStruct(UserType));
    JsonDefaultRefused(c, Tag(DefaultKey, PeterJson, []), User(""));
  }

  /**
   * As written, `SetDefault(&Account{})` on the test's full `Account` fails:
   * the category is filled, but the user's JSON literal reaches the converter
   * as a `json.RawMessage`, which it cannot turn into a struct.
   */
  lemma AsWrittenJsonDefaultFails(c: Codec)
    ensures SetDefault(c, FullAccount("", None)) == Fail(FullAccount("unknown", None), CannotConvert(KSlice, KStruct))
  {
    FullAccountFields();
    UserDefault(c);
    var d := DefaultDecoderAsWritten(c);
    var views := Fields(FullAccountType, DefaultKey);
    var nilUser := Ptr(TStruct(UserType), None);
    var r0 := Record(FullAccountType, [Str(""), nilUser]);
    var r1 := Record(FullAccountType, [Str("unknown"), nilUser]);
    assert Provided(d.source, TString, true, views[0].tag) == Ok(Text("unknown"));
    assert Conv(c, DefaultKey, Str("unknown"), Str("")) == Done(Str("unknown"));
    assert FieldStep(d, r0, views, 0) == Done(r1);
    assert FieldStep(d, r1, views, 1) == Fail(r1, CannotConvert(KSlice, KStruct));
    assert DecodeFields(d, r1, views, 1) == Fail(r1, CannotConvert(KSlice, KStruct));
  }

  /**
   * With the corrected `SetDefault`, and a `json.Unmarshal` that reads the
   * literal as `User{Name: "Peter"}`, `SetDefault(&Account{})` fills both the
   * category and the user.
   */
  lemma SetDefaultDecodesJson(c: Codec)
    requires c.unmarshalJson(TStruct(UserType), PeterJson) == Ok(User("Peter"))
    ensures SetDefaultCorrected(c, FullAccount("", None)) == Done(FullAccount("unknown", Some(User("Peter"))))
  {
    FullAccountFields();
    UserDefault(c);
    var d := DefaultDecoder(c);
    var views := Fields(FullAccountType, DefaultKey);
    var nilUser := Ptr(TStruct(UserType), None);
    var r0 := Record(FullAccountType, [Str(""), nilUser]);
    var r1 := Record(FullAccountType, [Str("unknown"), nilUser]);
    var r2 := Record(FullAccountType, [Str("unknown"), Ptr(TStruct(UserType), Some(User("Peter")))]);
    assert Provided(d.source, TString, true, views[0].tag) == Ok(Text("unknown"));
    assert Conv(c, DefaultKey, Str("unknown"), Str("")) == Done(Str("unknown"));
    assert FieldStep(d, r0, views, 0) == Done(r1);
    assert Conv(c, DefaultKey, User("Peter"), User("")) == Done(User("Peter"));
    assert SetField(r1, 1, User("Peter")) == r2;
    assert FieldStep(d, r1, views, 1) == Done(r2);
    assert DecodeFields(d, r2, views, 2) == Done(r2);
    assert DecodeFields(d, r1, views, 1) == Done(r2);
  }
}
