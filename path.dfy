/**
 * The path-parameter provider (path.go): reads one route parameter, found
 * by case-insensitive name, in the simple, label or matrix style of
 * RFC 6570 and returns a string, a list or a map of strings.
 */
module PathParams {
  import opened Wrappers
  import opened Strings
  import opened Assoc
  import opened Tags
  import opened Errors
  import opened Pairs
  import opened Payloads
  import opened Contexts
  import opened Lookup
  import opened Expansion

  /** The route's parameters in order, each a name with its raw value. */
  datatype PathProvider = PathProvider(params: seq<(string, string)>)
  {
    /** `param`: the first parameter whose name matches ignoring case. */
    method Param(name: string) returns (r: Option<string>)
      ensures r == FirstFold(params, name)
    {
      r := Find(params, name);
    }

    /** `valueOf`. */
    method ValueOf(ctx: Context) returns (r: Result<Payload, Error>)
      ensures r == Scalar(FirstFold(params, ctx.tag.name), ctx.tag)
    {
      var param := Param(ctx.tag.name);
      r := Scalar(param, ctx.tag);
    }

    /** `arrayOf`, with its copy into a fresh `[]interface{}`. */
    method ArrayOf(ctx: Context) returns (r: Result<Option<seq<string>>, Error>)
      ensures r == Items(FirstFold(params, ctx.tag.name), ctx.tag)
    {
      var param := Param(ctx.tag.name);
      match ArrayLayout(ctx.tag)
      case None =>
        r := Items(param, ctx.tag);
      case Some(layout) =>
        if param.None? {
          return Ok(None);
        }
        var parts := Split(TrimPrefix(param.value, layout.0), layout.1);
        var result := ConvertArray(parts);
        assert result == parts;
        r := Ok(Some(result));
    }

    /** `mapOf`, running the source's map-literal loops. */
    method MapOf(ctx: Context) returns (r: Result<Payload, Error>)
      ensures r == Object(FirstFold(params, ctx.tag.name), ctx.tag)
    {
      var param := Param(ctx.tag.name);
      match MapLayout(ctx.tag)
      case None =>
        r := Object(param, ctx.tag);
      case Some(layout) =>
        if param.None? {
          return Ok(NilDict);
        }
        var parts := Split(TrimPrefix(param.value, layout.0), layout.1);
        var m;
        if HasOption(ctx.tag, Explode) {
          m := ParseExplodeMap(parts);
        } else {
          m := ParseConvertMap(parts);
        }
        match m {
          case Err(e) => r := Err(Prefixed(PathOrigin, e));
          case Ok(es) => r := Ok(Dict(Leaves(es)));
        }
    }

    /**
     * `Value`: with no options the tag gets "simple"; then the target's
     * codec and shape pick the scalar, list or map reading.
     */
    method Value(ctx: Context) returns (r: Result<Payload, Error>)
      modifies ctx
      ensures ctx.tag == WithDefaults(old(ctx.tag))
      ensures r == Decoded(params, ctx.tag, ctx.shape, ctx.codec)
    {
      if |ctx.tag.options| == 0 {
        ctx.AddOption(Simple);
      }
      if ctx.codec {
        r := ValueOf(ctx);
        return;
      }
      match ctx.shape {
        case MapShape =>
          r := MapOf(ctx);
        case ArrayShape =>
          var values := ArrayOf(ctx);
          match values {
            case Err(e) => r := Err(e);
            case Ok(vs) => r := Ok(ConvertValue(vs));
          }
        case ScalarShape =>
          r := ValueOf(ctx);
      }
    }
  }

  /** The tag after `Value`'s defaulting: no options means simple. */
  function WithDefaults(tag: Tag): Tag {
    if |tag.options| == 0 then tag.(options := [Simple]) else tag
  }

  /** The style a tag selects: simple wins over label, label over matrix. */
  predicate Selects(tag: Tag, style: Style) {
    match style
    case SimpleStyle => HasOption(tag, Simple)
    case LabelStyle => !HasOption(tag, Simple) && HasOption(tag, Label)
    case MatrixStyle => !HasOption(tag, Simple) && !HasOption(tag, Label) && HasOption(tag, Matrix)
  }

  function Unprovided(tag: Tag): Error {
    Prefixed(PathOrigin, NotProvided(tag.name, [Simple, Label, Matrix]))
  }

  /** `valueOf` on a looked-up parameter. */
  function Scalar(param: Option<string>, tag: Tag): Result<Payload, Error> {
    match param
    case None => Ok(Nothing)
    case Some(p) =>
      if HasOption(tag, Simple) then Ok(Text(p))
      else if HasOption(tag, Label) then Ok(Text(TrimPrefix(p, ".")))
      else if HasOption(tag, Matrix) then Ok(Text(TrimPrefix(p, ";" + tag.name + "=")))
      else Err(Unprovided(tag))
  }

  /** The prefix to strip and the separator to split at for a list, if a style is given. */
  function ArrayLayout(tag: Tag): (r: Option<(string, string)>)
    ensures r.Some? ==> |r.value.1| > 0
  {
    var explode := HasOption(tag, Explode);
    if HasOption(tag, Simple) then Some(("", ","))
    else if HasOption(tag, Label) then Some((".", if explode then "." else ","))
    else if HasOption(tag, Matrix) then
      var prefix := ";" + tag.name + "=";
      Some((prefix, if explode then prefix else ","))
    else None
  }

  /** `arrayOf` on a looked-up parameter: None for a missing one. */
  function Items(param: Option<string>, tag: Tag): Result<Option<seq<string>>, Error> {
    match param
    case None => Ok(None)
    case Some(p) =>
      match ArrayLayout(tag)
      case None => Err(Unprovided(tag))
      case Some(layout) => Ok(Some(Split(TrimPrefix(p, layout.0), layout.1)))
  }

  /** The prefix and separator for a map; an exploded matrix map uses ";" for both. */
  function MapLayout(tag: Tag): (r: Option<(string, string)>)
    ensures r.Some? ==> |r.value.1| > 0
  {
    var explode := HasOption(tag, Explode);
    if HasOption(tag, Simple) then Some(("", ","))
    else if HasOption(tag, Label) then Some((".", if explode then "." else ","))
    else if HasOption(tag, Matrix) then
      if explode then Some((";", ";")) else Some((";" + tag.name + "=", ","))
    else None
  }

  /** `mapOf` on a looked-up parameter: `k=v` items when exploded, a flat list otherwise. */
  function Object(param: Option<string>, tag: Tag): Result<Payload, Error> {
    match param
    case None => Ok(NilDict)
    case Some(p) =>
      match MapLayout(tag)
      case None => Err(Unprovided(tag))
      case Some(layout) => Parsed(PathOrigin, Split(TrimPrefix(p, layout.0), layout.1), HasOption(tag, Explode))
  }

  /** What `Value` returns for a tag whose defaults are already in place. */
  function Decoded(params: seq<(string, string)>, tag: Tag, shape: Shape, codec: bool): Result<Payload, Error> {
    var param := FirstFold(params, tag.name);
    if codec then Scalar(param, tag)
    else match shape
      case MapShape => Object(param, tag)
      case ArrayShape =>
        (match Items(param, tag)
         case Err(e) => Err(e)
         case Ok(vs) => Ok(ConvertValue(vs)))
      case ScalarShape => Scalar(param, tag)
  }

  // ---------------------------------------------------------------------
  // Properties

  /** A tag without options reads the simple style. */
  lemma DefaultIsSimple(tag: Tag)
    requires |tag.options| == 0
    ensures Selects(WithDefaults(tag), SimpleStyle)
    ensures WithDefaults(tag).name == tag.name
  {
    assert WithDefaults(tag).options[0] == Simple;
  }

  /** A parameter the route lacks is no value and no error, whatever the shape or the options. */
  lemma MissingParameter(params: seq<(string, string)>, tag: Tag, shape: Shape, codec: bool)
    requires forall i :: 0 <= i < |params| ==> !EqualFold(params[i].0, tag.name)
    ensures Decoded(params, tag, shape, codec) ==
      if codec || shape == ScalarShape then Ok(Nothing)
      else if shape == ArrayShape then Ok(NilList)
      else Ok(NilDict)
  {
    assert FirstFold(params, tag.name) == None;
  }

  /** A present parameter under a tag naming none of the three styles is a "not provided" error. */
  lemma NoStyle(params: seq<(string, string)>, tag: Tag, shape: Shape, codec: bool)
    requires FirstFold(params, tag.name).Some?
    requires !HasOption(tag, Simple) && !HasOption(tag, Label) && !HasOption(tag, Matrix)
    ensures Decoded(params, tag, shape, codec) == Err(Prefixed(PathOrigin, NotProvided(tag.name, ["simple", "label", "matrix"])))
  {
  }

  /** Reading a single value undoes its expansion in the selected style. */
  lemma ScalarRoundTrip(tag: Tag, style: Style, v: string)
    requires Selects(tag, style)
    ensures Scalar(Some(ExpandScalar(style, tag.name, v)), tag) == Ok(Text(v))
  {
    var s := ExpandScalar(style, tag.name, v);
    assert HasPrefix(s, Lead(style, tag.name)) by {
      assert s[..|Lead(style, tag.name)|] == Lead(style, tag.name);
    }
  }

  /**
   * Reading a list undoes its expansion in the selected style, exploded or
   * not, when no item holds the separator: one element per item, in order.
   */
  lemma ListRoundTrip(tag: Tag, style: Style, items: seq<string>)
    requires Selects(tag, style) && |items| >= 1
    requires ItemsFree(items, ListJoiner(style, HasOption(tag, Explode), tag.name)[0])
    ensures Items(Some(ExpandList(style, HasOption(tag, Explode), tag.name, items)), tag) == Ok(Some(items))
  {
    var explode := HasOption(tag, Explode);
    var lead, joiner := Lead(style, tag.name), ListJoiner(style, explode, tag.name);
    assert ArrayLayout(tag) == Some((lead, joiner));
    TrimLead(lead, Join(items, joiner));
    SplitJoin(items, joiner);
  }

  /**
   * Reading a map undoes its expansion in the selected style: flat pairs or
   * `k=v` items, when keys are distinct and non-empty and neither keys nor
   * values hold the separator (nor "=" when exploded).
   */
  lemma MapRoundTrip(tag: Tag, style: Style, es: seq<(string, string)>)
    requires Selects(tag, style) && |es| >= 1 && Distinct(es)
    requires PairsFree(es, MapJoiner(style, HasOption(tag, Explode))[0])
    requires HasOption(tag, Explode) ==> PairsFree(es, '=')
    ensures Object(Some(ExpandMap(style, HasOption(tag, Explode), tag.name, es)), tag) == Ok(Dict(Leaves(es)))
  {
    var explode := HasOption(tag, Explode);
    var lead, joiner := MapLead(style, explode, tag.name), MapJoiner(style, explode);
    var parts := if explode then Assigns(es) else Flat(es);
    var s := ExpandMap(style, explode, tag.name, es);
    assert s == lead + Join(parts, joiner);
    MapLayoutOf(tag, style);
    TrimLead(lead, Join(parts, joiner));
    assert Object(Some(s), tag) == Parsed(PathOrigin, Split(Join(parts, joiner), joiner), explode);
    if explode {
      ExplodedRoundTrip(PathOrigin, es, joiner);
    } else {
      FlatRoundTrip(PathOrigin, es, joiner);
    }
  }

  lemma TrimLead(lead: string, rest: string)
    ensures TrimPrefix(lead + rest, lead) == rest
  {
    assert (lead + rest)[..|lead|] == lead;
  }

  lemma MapLayoutOf(tag: Tag, style: Style)
    requires Selects(tag, style)
    ensures MapLayout(tag) == Some((MapLead(style, HasOption(tag, Explode), tag.name), MapJoiner(style, HasOption(tag, Explode))))
  {
  }

  /**
   * A flat map value with an odd number of comma-separated parts is an
   * invalid object, reported with the "path: " prefix.
   */
  lemma OddPairs(tag: Tag, p: string)
    requires HasOption(tag, Simple) && !HasOption(tag, Explode)
    requires |Split(p, ",")| % 2 == 1
    ensures Object(Some(p), tag) == Err(Prefixed(PathOrigin, InvalidObject(Split(p, ","))))
  {
    assert TrimPrefix(p, "") == p by { assert p[..0] == ""; }
  }
}
