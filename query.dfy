/**
 * The query-string provider (query.go): reads the values of one query
 * parameter in the form, space-delimited, pipe-delimited or deep-object
 * style of the OpenAPI 3.0 parameter styles (form being section 3.2.8 of
 * RFC 6570), and returns a string, a list or a map of strings.
 *
 * `url.Values` is a map from names to value lists; the order in which Go
 * happens to range over it is an explicit list of its names.
 */
module QueryParams {
  import opened Wrappers
  import opened Strings
  import opened Assoc
  import opened Tags
  import opened Errors
  import opened Pairs
  import opened Payloads
  import opened Contexts
  import opened Expansion
  import opened DeepObjects

  datatype QueryProvider = QueryProvider(query: map<string, seq<string>>, order: seq<string>)
  {
    /** `queryMap`: one pass over the parameters, keeping the first value of each non-empty list. */
    method QueryMap() returns (m: Entries<string, string>)
      ensures m == FirstValues(query, order)
    {
      m := [];
      for i := 0 to |order|
        invariant m == FirstValues(query, order[..i])
      {
        var k := order[i];
        assert order[..i + 1][..i] == order[..i];
        FirstsSnoc(query, order[..i], k);
        assert order[..i + 1] == order[..i] + [k];
        if k in query && |query[k]| > 0 {
          m := Put(m, k, query[k][0]);
        }
      }
      assert order[..|order|] == order;
    }

    /**
     * `deepObject` as written: every key of the whole query, with the field
     * name cut off its front, is read as a bracket path.
     */
    method ReadDeep(ctx: Context) returns (r: Result<seq<(string, Tree)>, Error>)
      ensures r == Deep(FirstValues(query, order), ctx.tag.name)
    {
      var pairs := QueryMap();
      var result: seq<(string, Tree)> := [];
      for i := 0 to |pairs|
        invariant Deep(pairs[..i], ctx.tag.name) == Ok(result)
      {
        DeepSnoc(pairs[..i], pairs[i], ctx.tag.name);
        assert pairs[..i] + [pairs[i]] == pairs[..i + 1];
        var keys := ParseKey(TrimPrefix(pairs[i].0, ctx.tag.name));
        if keys.Err? {
          DeepStops(pairs, i + 1, ctx.tag.name);
          return Err(Prefixed(QueryOrigin, NotParsed(ctx.tag.name, keys.error)));
        }
        result := Insert(result, keys.value, pairs[i].1);
      }
      assert pairs[..|pairs|] == pairs;
      return Ok(result);
    }

    /** `deepObject` as intended: reading only the parameters that belong to the field. */
    method ReadOwnDeep(ctx: Context) returns (r: Result<seq<(string, Tree)>, Error>)
      ensures r == OwnDeep(FirstValues(query, order), ctx.tag.name)
    {
      var pairs := QueryMap();
      var name := ctx.tag.name;
      var result: seq<(string, Tree)> := [];
      for i := 0 to |pairs|
        invariant Deep(Own(pairs[..i], name), name) == Ok(result)
      {
        OwnSnoc(pairs, i, name);
        if HasPrefix(pairs[i].0, name + "[") {
          DeepSnoc(Own(pairs[..i], name), pairs[i], name);
          var keys := ParseKey(TrimPrefix(pairs[i].0, name));
          if keys.Err? {
            OwnDeepStops(pairs, i + 1, name);
            return Err(Prefixed(QueryOrigin, NotParsed(name, keys.error)));
          }
          result := Insert(result, keys.value, pairs[i].1);
        }
      }
      assert pairs[..|pairs|] == pairs;
      return Ok(result);
    }

    /** `valueOf`. */
    method ValueOf(ctx: Context) returns (r: Result<Payload, Error>)
      ensures r == Scalar(ValuesOf(query, ctx.tag.name), ctx.tag)
    {
      r := Scalar(ValuesOf(query, ctx.tag.name), ctx.tag);
    }

    /** `arrayOf`, with the copy of `convertArray`. */
    method ArrayOf(ctx: Context) returns (r: Result<Option<seq<string>>, Error>)
      ensures r == Items(ValuesOf(query, ctx.tag.name), ctx.tag)
    {
      var values := ValuesOf(query, ctx.tag.name);
      r := Items(values, ctx.tag);
      if r.Ok? && r.value.Some? {
        var copied := ConvertArray(r.value.value);
        assert copied == r.value.value;
        r := Ok(Some(copied));
      }
    }

    /** `mapOf`. */
    method MapOf(ctx: Context) returns (r: Result<Payload, Error>)
      ensures r == Object(this, ctx.tag)
    {
      var tag := ctx.tag;
      if HasOption(tag, Form) {
        if HasOption(tag, Explode) {
          var m := QueryMap();
          return Ok(Dict(Leaves(m)));
        }
        var values := ValuesOf(query, tag.name);
        if |values| == 0 {
          return Ok(NilDict);
        }
        var m := ParseConvertMap(Split(values[0], ","));
        match m {
          case Err(e) => r := Err(e);
          case Ok(es) => r := Ok(Dict(Leaves(es)));
        }
      } else if HasOption(tag, SpaceDelimited) {
        r := Err(Unsupported(tag, SpaceDelimited));
      } else if HasOption(tag, PipeDelimited) {
        r := Err(Unsupported(tag, PipeDelimited));
      } else if HasOption(tag, DeepObject) {
        if HasOption(tag, Explode) {
          return Err(Unsupported(tag, Explode));
        }
        var m := ReadDeep(ctx);
        match m {
          case Err(e) => r := Err(e);
          case Ok(es) => r := Ok(Dict(es));
        }
      } else {
        r := Err(Prefixed(QueryOrigin, NotProvided(tag.name, [Form, SpaceDelimited, PipeDelimited])));
      }
    }

    /**
     * `Value`: with no options the tag gets "form" and "explode"; then the
     * target's codec and shape pick the scalar, list or map reading.
     */
    method Value(ctx: Context) returns (r: Result<Payload, Error>)
      modifies ctx
      ensures ctx.tag == WithDefaults(old(ctx.tag))
      ensures r == Decoded(this, ctx.tag, ctx.shape, ctx.codec)
    {
      if |ctx.tag.options| == 0 {
        ctx.AddOption(Form);
        ctx.AddOption(Explode);
      }
      if ctx.codec {
        r := ValueOf(ctx);
        return;
      }
      match ctx.shape {
        case MapShape =>
          r := MapOf(ctx);
        case ArrayShape =>
          var values := ArrayOf(ctx);
          match values {
            case Err(e) => r := Err(e);
            case Ok(vs) => r := Ok(ConvertValue(vs));
          }
        case ScalarShape =>
          r := ValueOf(ctx);
      }
    }
  }

  /** `queryArray`: the values of `key`, none when it is absent. */
  function ValuesOf(query: map<string, seq<string>>, key: string): seq<string> {
    if key in query then query[key] else []
  }

  /** The pairs `(k, first value of k)` met along `order`, skipping names with no values. */
  function Firsts(query: map<string, seq<string>>, order: seq<string>): (r: seq<(string, string)>)
    ensures forall j :: 0 <= j < |r| ==> r[j].0 in query && |query[r[j].0]| > 0 && r[j].1 == query[r[j].0][0]
    ensures forall k :: k in order && k in query && |query[k]| > 0 ==> exists j :: 0 <= j < |r| && r[j].0 == k
    decreases |order|
  {
    if order == [] then []
    else
      var n := |order| - 1;
      var k := order[n];
      var front := Firsts(query, order[..n]);
      var r := if k in query && |query[k]| > 0 then front + [(k, query[k][0])] else front;
      assert forall k' :: k' in order && k' != k ==> k' in order[..n] by {
        forall k' | k' in order && k' != k ensures k' in order[..n] {
          var i :| 0 <= i < |order| && order[i] == k';
          assert i < n && order[..n][i] == k';
        }
      }
      assert forall j :: 0 <= j < |front| ==> r[j] == front[j];
      assert forall k' :: k' in order && k' in query && |query[k']| > 0 ==> exists j :: 0 <= j < |r| && r[j].0 == k' by {
        forall k' | k' in order && k' in query && |query[k']| > 0
          ensures exists j :: 0 <= j < |r| && r[j].0 == k'
        {
          if k' == k {
            assert r[|front|].0 == k;
          } else {
            var j :| 0 <= j < |front| && front[j].0 == k';
            assert r[j].0 == k';
          }
        }
      }
      r
  }

  /** What `queryMap` builds. */
  function FirstValues(query: map<string, seq<string>>, order: seq<string>): Entries<string, string> {
    PutAll([], Firsts(query, order))
  }

  lemma FirstsSnoc(query: map<string, seq<string>>, order: seq<string>, k: string)
    ensures FirstValues(query, order + [k]) ==
      if k in query && |query[k]| > 0 then Put(FirstValues(query, order), k, query[k][0]) else FirstValues(query, order)
  {
    var o := order + [k];
    assert o[..|order|] == order && o[|order|] == k;
    var front := Firsts(query, order);
    if k in query && |query[k]| > 0 {
      var xs := front + [(k, query[k][0])];
      assert xs[..|front|] == front;
    }
  }

  /** The tag after `Value`'s defaulting: no options means form, exploded. */
  function WithDefaults(tag: Tag): Tag {
    if |tag.options| == 0 then tag.(options := [Form, Explode]) else tag
  }

  function Unsupported(tag: Tag, option: string): Error {
    Prefixed(QueryOrigin, NotSupported(tag.name, option))
  }

  /** `valueOf` on the parameter's values. */
  function Scalar(values: seq<string>, tag: Tag): Result<Payload, Error> {
    if |values| == 0 then Ok(Nothing)
    else if HasOption(tag, Form) then Ok(Text(values[0]))
    else if HasOption(tag, SpaceDelimited) then Err(Unsupported(tag, SpaceDelimited))
    else if HasOption(tag, PipeDelimited) then Err(Unsupported(tag, PipeDelimited))
    else if HasOption(tag, DeepObject) then Err(Unsupported(tag, DeepObject))
    else Err(Prefixed(QueryOrigin, NotProvided(tag.name, [Form, SpaceDelimited, DeepObject])))
  }

  /** The separator a list style splits at: form ",", space-delimited " ", pipe-delimited "|". */
  function ListSeparator(tag: Tag): (r: Option<string>)
    ensures r.Some? ==> |r.value| == 1
  {
    if HasOption(tag, Form) then Some(",")
    else if HasOption(tag, SpaceDelimited) then Some(" ")
    else if HasOption(tag, PipeDelimited) then Some("|")
    else None
  }

  /** `arrayOf` on the parameter's values: None for no values. */
  function Items(values: seq<string>, tag: Tag): Result<Option<seq<string>>, Error> {
    if |values| == 0 then Ok(None)
    else match ListSeparator(tag)
      case Some(sep) =>
        if HasOption(tag, Explode) then Ok(Some(values)) else Ok(Some(Split(values[0], sep)))
      case None =>
        if HasOption(tag, DeepObject) then Err(Unsupported(tag, DeepObject))
        else Err(Prefixed(QueryOrigin, NotProvided(tag.name, [Form, SpaceDelimited, PipeDelimited])))
  }

  /** The deep-object walk over the given pairs, stopping at the first key that is no bracket path. */
  function Deep(pairs: seq<(string, string)>, name: string): Result<seq<(string, Tree)>, Error>
    decreases |pairs|
  {
    if pairs == [] then Ok([])
    else
      var n := |pairs| - 1;
      Step(Deep(pairs[..n], name), pairs[n], name)
  }

  /** One pair of the walk: its key, less the field name, must be a bracket path. */
  function Step(walked: Result<seq<(string, Tree)>, Error>, x: (string, string), name: string): Result<seq<(string, Tree)>, Error> {
    match walked
    case Err(e) => Err(e)
    case Ok(m) =>
      match KeyPath(TrimPrefix(x.0, name))
      case Err(cause) => Err(Prefixed(QueryOrigin, NotParsed(name, cause)))
      case Ok(keys) => Ok(Insert(m, keys, x.1))
  }

  /** The pairs whose key is the field name followed by a bracket. */
  function Own(pairs: seq<(string, string)>, name: string): (r: seq<(string, string)>)
    ensures forall j :: 0 <= j < |r| ==> HasPrefix(r[j].0, name + "[")
    decreases |pairs|
  {
    if pairs == [] then []
    else
      var n := |pairs| - 1;
      if HasPrefix(pairs[n].0, name + "[") then Own(pairs[..n], name) + [pairs[n]] else Own(pairs[..n], name)
  }

  lemma DeepSnoc(pairs: seq<(string, string)>, x: (string, string), name: string)
    ensures Deep(pairs + [x], name) == Step(Deep(pairs, name), x, name)
  {
    assert (pairs + [x])[..|pairs|] == pairs;
  }

  /** Once the walk fails, reading more pairs does not change the error. */
  lemma {:induction false} DeepStops(pairs: seq<(string, string)>, i: nat, name: string)
    requires i <= |pairs| && Deep(pairs[..i], name).Err?
    ensures Deep(pairs, name) == Deep(pairs[..i], name)
    decreases |pairs| - i
  {
    if i < |pairs| {
      DeepSnoc(pairs[..i], pairs[i], name);
      assert pairs[..i] + [pairs[i]] == pairs[..i + 1];
      DeepStops(pairs, i + 1, name);
    } else {
      assert pairs[..i] == pairs;
    }
  }

  lemma OwnSnoc(pairs: seq<(string, string)>, i: nat, name: string)
    requires i < |pairs|
    ensures Own(pairs[..i + 1], name) ==
      if HasPrefix(pairs[i].0, name + "[") then Own(pairs[..i], name) + [pairs[i]] else Own(pairs[..i], name)
  {
    assert pairs[..i + 1][..i] == pairs[..i];
  }

  /** The same for the walk over the field's own pairs. */
  lemma {:induction false} OwnDeepStops(pairs: seq<(string, string)>, i: nat, name: string)
    requires i <= |pairs| && Deep(Own(pairs[..i], name), name).Err?
    ensures Deep(Own(pairs, name), name) == Deep(Own(pairs[..i], name), name)
    decreases |pairs| - i
  {
    if i < |pairs| {
      OwnSnoc(pairs, i, name);
      if HasPrefix(pairs[i].0, name + "[") {
        DeepSnoc(Own(pairs[..i], name), pairs[i], name);
      }
      OwnDeepStops(pairs, i + 1, name);
    } else {
      assert pairs[..i] == pairs;
    }
  }

  function OwnDeep(pairs: seq<(string, string)>, name: string): Result<seq<(string, Tree)>, Error> {
    Deep(Own(pairs, name), name)
  }

  /** An unexploded form map: the first value holds the keys and values, comma-separated. */
  function FormMap(values: seq<string>): Result<Payload, Error> {
    if |values| == 0 then Ok(NilDict)
    else match ConvertMap(Split(values[0], ","))
      case Err(e) => Err(e)
      case Ok(es) => Ok(Dict(Leaves(es)))
  }

  /** `mapOf` over the whole query. */
  function Object(p: QueryProvider, tag: Tag): Result<Payload, Error> {
    if HasOption(tag, Form) then
      if HasOption(tag, Explode) then Ok(Dict(Leaves(FirstValues(p.query, p.order))))
      else FormMap(ValuesOf(p.query, tag.name))
    else if HasOption(tag, SpaceDelimited) then Err(Unsupported(tag, SpaceDelimited))
    else if HasOption(tag, PipeDelimited) then Err(Unsupported(tag, PipeDelimited))
    else if HasOption(tag, DeepObject) then
      if HasOption(tag, Explode) then Err(Unsupported(tag, Explode))
      else match Deep(FirstValues(p.query, p.order), tag.name)
        case Err(e) => Err(e)
        case Ok(es) => Ok(Dict(es))
    else Err(Prefixed(QueryOrigin, NotProvided(tag.name, [Form, SpaceDelimited, PipeDelimited])))
  }

  /** What `Value` returns for a tag whose defaults are already in place. */
  function Decoded(p: QueryProvider, tag: Tag, shape: Shape, codec: bool): Result<Payload, Error> {
    var values := ValuesOf(p.query, tag.name);
    if codec then Scalar(values, tag)
    else match shape
      case MapShape => Object(p, tag)
      case ArrayShape =>
        (match Items(values, tag)
         case Err(e) => Err(e)
         case Ok(vs) => Ok(ConvertValue(vs)))
      case ScalarShape => Scalar(values, tag)
  }

  // ---------------------------------------------------------------------
  // Properties

  /**
   * `queryMap` binds every parameter with at least one value to its first
   * value, and nothing else, without duplicate keys.
   */
  lemma QueryMapSpec(query: map<string, seq<string>>, order: seq<string>)
    requires forall k :: k in query ==> k in order
    ensures Distinct(FirstValues(query, order))
    ensures forall k :: Get(FirstValues(query, order), k) ==
                        (if k in query && |query[k]| > 0 then Some(query[k][0]) else None)
  {
    var xs := Firsts(query, order);
    PutAllSpec(xs);
    forall k ensures Get(FirstValues(query, order), k) == if k in query && |query[k]| > 0 then Some(query[k][0]) else None {
      if exists j :: 0 <= j < |xs| && xs[j].0 == k {
        var j := LastIndex(xs, k);
        PutAllGetLast([], xs, k, j);
      } else {
        PutAllGetOther([], xs, k);
      }
    }
  }

  /** A parameter with no values reads as nothing: no value, a nil list, or (form, unexploded) a nil map. */
  lemma MissingValues(p: QueryProvider, tag: Tag, shape: Shape, codec: bool)
    requires |ValuesOf(p.query, tag.name)| == 0
    ensures codec || shape == ScalarShape ==> Decoded(p, tag, shape, codec) == Ok(Nothing)
    ensures !codec && shape == ArrayShape ==> Decoded(p, tag, shape, codec) == Ok(NilList)
    ensures !codec && shape == MapShape && HasOption(tag, Form) && !HasOption(tag, Explode) ==>
      Decoded(p, tag, shape, codec) == Ok(NilDict)
  {
  }

  /**
   * A single value: form reads the first value; space-delimited,
   * pipe-delimited and deep object are not supported; with none of these
   * the error names form, space-delimited and deep object.
   */
  lemma ScalarStyles(values: seq<string>, tag: Tag)
    requires |values| >= 1
    ensures HasOption(tag, Form) ==> Scalar(values, tag) == Ok(Text(values[0]))
    ensures !HasOption(tag, Form) && HasOption(tag, SpaceDelimited) ==>
      Scalar(values, tag) == Err(Prefixed(QueryOrigin, NotSupported(tag.name, "space-delimited")))
    ensures !HasOption(tag, Form) && !HasOption(tag, SpaceDelimited) && HasOption(tag, PipeDelimited) ==>
      Scalar(values, tag) == Err(Prefixed(QueryOrigin, NotSupported(tag.name, "pipe-delimited")))
    ensures (!HasOption(tag, Form) && !HasOption(tag, SpaceDelimited) && !HasOption(tag, PipeDelimited) &&
             HasOption(tag, DeepObject)) ==>
      Scalar(values, tag) == Err(Prefixed(QueryOrigin, NotSupported(tag.name, "deep-object")))
    ensures (!HasOption(tag, Form) && !HasOption(tag, SpaceDelimited) && !HasOption(tag, PipeDelimited) &&
             !HasOption(tag, DeepObject)) ==>
      Scalar(values, tag) == Err(Prefixed(QueryOrigin, NotProvided(tag.name, ["form", "space-delimited", "deep-object"])))
  {
  }

  /**
   * A list reads back from its form (","), space-delimited (" ") or
   * pipe-delimited ("|") rendering in the first value, or, exploded, from
   * the repeated values in order.
   */
  lemma ListRoundTrip(tag: Tag, items: seq<string>, more: seq<string>)
    requires ListSeparator(tag).Some? && |items| >= 1
    requires ItemsFree(items, ListSeparator(tag).value[0])
    ensures !HasOption(tag, Explode) ==> Items([Join(items, ListSeparator(tag).value)] + more, tag) == Ok(Some(items))
    ensures HasOption(tag, Explode) ==> Items(items, tag) == Ok(Some(items))
  {
    SplitJoin(items, ListSeparator(tag).value);
  }

  /** An unexploded form map reads back from its flat rendering in the first value. */
  lemma FormMapRoundTrip(p: QueryProvider, tag: Tag, es: seq<(string, string)>, more: seq<string>)
    requires HasOption(tag, Form) && !HasOption(tag, Explode)
    requires ValuesOf(p.query, tag.name) == [Join(Flat(es), ",")] + more
    requires |es| >= 1 && Distinct(es) && PairsFree(es, ',')
    ensures Object(p, tag) == Ok(Dict(Leaves(es)))
  {
    FormMapReads(es, more);
  }

  lemma FormMapReads(es: seq<(string, string)>, more: seq<string>)
    requires |es| >= 1 && Distinct(es) && PairsFree(es, ',')
    ensures FormMap([Join(Flat(es), ",")] + more) == Ok(Dict(Leaves(es)))
  {
    var parts := Flat(es);
    FlatFree(es, ',');
    assert Split(Join(parts, ","), ",") == parts by {
      SplitJoin(parts, ",");
    }
    assert ConvertMap(parts) == Ok(es) by {
      ConvertMapFlat(es);
    }
  }

  /** An exploded form map is the whole query, each parameter with its first value. */
  lemma ExplodedFormMap(p: QueryProvider, tag: Tag)
    requires HasOption(tag, Form) && HasOption(tag, Explode)
    requires forall k :: k in p.query ==> k in p.order
    ensures Object(p, tag) == Ok(Dict(Leaves(FirstValues(p.query, p.order))))
    ensures forall k :: Get(FirstValues(p.query, p.order), k) ==
                        (if k in p.query && |p.query[k]| > 0 then Some(p.query[k][0]) else None)
  {
    QueryMapSpec(p.query, p.order);
  }

  /**
   * The styles a map cannot take: space- and pipe-delimited, and an
   * exploded deep object; with none of form, space- or pipe-delimited or
   * deep object, the error names the first three.
   */
  lemma MapStyleErrors(p: QueryProvider, tag: Tag)
    requires !HasOption(tag, Form)
    ensures HasOption(tag, SpaceDelimited) ==> Object(p, tag) == Err(Prefixed(QueryOrigin, NotSupported(tag.name, "space-delimited")))
    ensures !HasOption(tag, SpaceDelimited) && HasOption(tag, PipeDelimited) ==>
      Object(p, tag) == Err(Prefixed(QueryOrigin, NotSupported(tag.name, "pipe-delimited")))
    ensures !HasOption(tag, SpaceDelimited) && !HasOption(tag, PipeDelimited) && HasOption(tag, DeepObject) && HasOption(tag, Explode) ==>
      Object(p, tag) == Err(Prefixed(QueryOrigin, NotSupported(tag.name, "explode")))
    ensures !HasOption(tag, SpaceDelimited) && !HasOption(tag, PipeDelimited) && !HasOption(tag, DeepObject) ==>
      Object(p, tag) == Err(Prefixed(QueryOrigin, NotProvided(tag.name, ["form", "space-delimited", "pipe-delimited"])))
  {
  }

  /** A parameter that does not belong to the field leaves the deep-object reading as it was. */
  lemma OwnDeepIgnores(pairs: seq<(string, string)>, x: (string, string), name: string)
    requires !HasPrefix(x.0, name + "[")
    ensures OwnDeep(pairs + [x], name) == OwnDeep(pairs, name)
  {
    assert (pairs + [x])[..|pairs|] == pairs;
  }

  /** The field's own parameter `name[k1][k2]...=v` reads as `v` stored under the path `k1, k2, ...`. */
  lemma OwnDeepReads(pairs: seq<(string, string)>, name: string, keys: seq<string>, v: string)
    requires Own(pairs, name) == [(name + Render(keys), v)] && Writable(keys) && |keys| >= 1
    ensures OwnDeep(pairs, name) == Ok(Insert([], keys, v))
    ensures At(Insert([], keys, v), keys) == Some(Leaf(v))
  {
    var x := (name + Render(keys), v);
    TrimJoined(name, Render(keys));
    PathRoundTrip(keys);
    assert Step(Ok([]), x, name) == Ok(Insert([], keys, v));
    DeepSnoc([], x, name);
    assert [] + [x] == [x];
    InsertThenAt([], keys, v);
  }

  lemma TrimJoined(prefix: string, rest: string)
    ensures TrimPrefix(prefix + rest, prefix) == rest
  {
    assert (prefix + rest)[..|prefix|] == prefix;
  }

  /**
   * As written, a parameter whose name neither starts with the field name
   * nor with "[" makes the whole deep-object reading fail.
   */
  lemma DeepRejectsOthers(pairs: seq<(string, string)>, x: (string, string), name: string)
    requires Deep(pairs, name).Ok?
    requires x.0 != "" && !HasPrefix(x.0, name) && x.0[0] != '['
    ensures Deep(pairs + [x], name) == Err(Prefixed(QueryOrigin, NotParsed(name, Unparsable(x.0))))
  {
    DeepSnoc(pairs, x, name);
    assert Render([]) + x.0 == x.0;
    if x.0[0] == ']' {
      StrayClose([], x.0);
    } else {
      WordOutside([], x.0);
    }
  }

  /**
   * The query `id[role]=admin&page=2`: as written, reading the deep object
   * `id` fails on the unrelated `page`.
   */
  lemma DeepObjectWithOtherParameter()
    ensures Deep([("id[role]", "admin"), ("page", "2")], "id") ==
      Err(Prefixed(QueryOrigin, NotParsed("id", Unparsable("page"))))
  {
    var x, y := ("id[role]", "admin"), ("page", "2");
    IdRole();
    assert !HasPrefix(y.0, "id") by { assert y.0[..2][0] == 'p'; }
    DeepRejectsOthers([x], y, "id");
    assert [x] + [y] == [x, y];
  }

  /** Reading only the field's own parameters, the same query gives `{role: admin}`. */
  lemma OwnDeepWithOtherParameter()
    ensures OwnDeep([("id[role]", "admin"), ("page", "2")], "id") == Ok([("role", Leaf("admin"))])
  {
    var x, y := ("id[role]", "admin"), ("page", "2");
    IdRole();
    assert !HasPrefix(y.0, "id[") by { assert y.0[..3][0] == 'p'; }
    OwnDeepIgnores([x], y, "id");
    assert [x] + [y] == [x, y];
  }

  /**
   * Through the provider: with the query `id[role]=admin&page=2`, the map
   * reading of the deep object `id` fails on `page`.
   */
  lemma ProviderDeepObjectWithOtherParameter(tag: Tag)
    requires tag.name == "id" && HasOption(tag, DeepObject) && !HasOption(tag, Explode)
    requires !HasOption(tag, Form) && !HasOption(tag, SpaceDelimited) && !HasOption(tag, PipeDelimited)
    ensures Decoded(IdRolePage(), tag, MapShape, false) == Err(Prefixed(QueryOrigin, NotParsed("id", Unparsable("page"))))
  {
    IdRolePagePairs();
    DeepObjectWithOtherParameter();
  }

  /** The query `id[role]=admin&page=2`, ranged over in that order. */
  function IdRolePage(): QueryProvider {
    QueryProvider(map["id[role]" := ["admin"], "page" := ["2"]], ["id[role]", "page"])
  }

  lemma IdRolePagePairs()
    ensures FirstValues(IdRolePage().query, IdRolePage().order) == [("id[role]", "admin"), ("page", "2")]
  {
    var query := IdRolePage().query;
    assert "id[role]" in query && query["id[role]"] == ["admin"];
    assert "page" in query && query["page"] == ["2"];
    var first: seq<(string, string)> := [("id[role]", "admin")];
    var empty: seq<string> := [];
    assert FirstValues(query, empty) == [];
    FirstsSnoc(query, empty, "id[role]");
    assert empty + ["id[role]"] == ["id[role]"];
    assert FirstValues(query, ["id[role]"]) == Put([], "id[role]", "admin");
    FirstsSnoc(query, ["id[role]"], "page");
    assert ["id[role]"] + ["page"] == ["id[role]", "page"];
    assert FirstValues(query, ["id[role]", "page"]) == Put(first, "page", "2");
    assert "page" != "id[role]" by { assert "page"[0] != "id[role]"[0]; }
    assert Put(first, "page", "2") == [first[0]] + Put([], "page", "2");
  }

  /** `id[role]=admin` on its own reads as `{role: admin}`. */
  lemma IdRole()
    ensures Deep([("id[role]", "admin")], "id") == Ok([("role", Leaf("admin"))])
    ensures OwnDeep([("id[role]", "admin")], "id") == Ok([("role", Leaf("admin"))])
  {
    var one: seq<(string, string)> := [("id[role]", "admin")];
    IdRoleOwn();
    IdRoleRendered();
    assert Writable(["role"]);
    OwnDeepReads(one, "id", ["role"], "admin");
    assert Insert([], ["role"], "admin") == [("role", Leaf("admin"))];
  }

  lemma IdRoleOwn()
    ensures Own([("id[role]", "admin")], "id") == [("id[role]", "admin")]
  {
    var one: seq<(string, string)> := [("id[role]", "admin")];
    assert one[..0] == [];
    assert HasPrefix(one[0].0, "id[") by { assert one[0].0[..3] == "id["; }
  }

  lemma IdRoleRendered()
    ensures "id[role]" == "id" + Render(["role"])
  {
    assert Render(["role"]) == "[role]" by { assert ["role"][1..] == []; }
  }

  /** When every parameter belongs to the field, reading only its own parameters is the walk as written. */
  lemma OwnDeepAgrees(pairs: seq<(string, string)>, name: string)
    requires forall i :: 0 <= i < |pairs| ==> HasPrefix(pairs[i].0, name + "[")
    ensures OwnDeep(pairs, name) == Deep(pairs, name)
  {
    OwnAll(pairs, name);
  }

  lemma {:induction false} OwnAll(pairs: seq<(string, string)>, name: string)
    requires forall i :: 0 <= i < |pairs| ==> HasPrefix(pairs[i].0, name + "[")
    ensures Own(pairs, name) == pairs
    decreases |pairs|
  {
    if pairs != [] {
      var n := |pairs| - 1;
      OwnAll(pairs[..n], name);
      assert pairs[..n] + [pairs[n]] == pairs;
    }
  }
}
