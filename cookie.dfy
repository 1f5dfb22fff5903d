/**
 * The cookie provider (cookie.go): reads one request cookie, found by
 * case-insensitive name, in the form style of RFC 6570 (section 3.2.8) and
 * returns a string, a list or a map of strings. Lists and maps are only
 * read unexploded.
 */
module CookieParams {
  import opened Wrappers
  import opened Strings
  import opened Assoc
  import opened Tags
  import opened Errors
  import opened Pairs
  import opened Payloads
  import opened Contexts
  import opened Lookup
  import opened Expansion

  /** The request's cookies in order, each a name with its value. */
  datatype CookieProvider = CookieProvider(cookies: seq<(string, string)>)
  {
    /** `cookie`: the first cookie whose name matches ignoring case. */
    method Cookie(name: string) returns (r: Option<string>)
      ensures r == FirstFold(cookies, name)
    {
      r := Find(cookies, name);
    }

    /** `valueOf`. */
    method ValueOf(ctx: Context) returns (r: Result<Payload, Error>)
      ensures r == Scalar(FirstFold(cookies, ctx.tag.name), ctx.tag)
    {
      var cookie := Cookie(ctx.tag.name);
      if cookie.None? {
        return Ok(Nothing);
      }
      if !HasOption(ctx.tag, Form) {
        return Err(Unprovided(ctx.tag));
      }
      r := Ok(Text(cookie.value));
    }

    /** `arrayOf`, with its copy into a fresh `[]interface{}`. */
    method ArrayOf(ctx: Context) returns (r: Result<Payload, Error>)
      ensures r == Items(FirstFold(cookies, ctx.tag.name), ctx.tag)
    {
      var cookie := Cookie(ctx.tag.name);
      if cookie.None? {
        return Ok(NilList);
      }
      if !HasOption(ctx.tag, Form) {
        return Err(Unprovided(ctx.tag));
      }
      if HasOption(ctx.tag, Explode) {
        return Err(Unsupported(ctx.tag));
      }
      var parts := Split(cookie.value, ",");
      var result := ConvertArray(parts);
      assert result == parts;
      r := Ok(List(result));
    }

    /** `mapOf`, running the source's map-literal loop. */
    method MapOf(ctx: Context) returns (r: Result<Payload, Error>)
      ensures r == Object(FirstFold(cookies, ctx.tag.name), ctx.tag)
    {
      var cookie := Cookie(ctx.tag.name);
      if cookie.None? {
        return Ok(NilDict);
      }
      if !HasOption(ctx.tag, Form) {
        return Err(Unprovided(ctx.tag));
      }
      if HasOption(ctx.tag, Explode) {
        return Err(Unsupported(ctx.tag));
      }
      var m := ParseConvertMap(Split(cookie.value, ","));
      match m {
        case Err(e) => r := Err(Prefixed(CookieOrigin, e));
        case Ok(es) => r := Ok(Dict(Leaves(es)));
      }
    }

    /**
     * `Value`: with no options the tag gets "form", and "explode" too for a
     * scalar target; then the target's shape alone picks the reading.
     */
    method Value(ctx: Context) returns (r: Result<Payload, Error>)
      modifies ctx
      ensures ctx.tag == WithDefaults(old(ctx.tag), ctx.shape)
      ensures r == Decoded(cookies, ctx.tag, ctx.shape)
    {
      if |ctx.tag.options| == 0 {
        ctx.AddOption(Form);
        match ctx.shape {
          case MapShape =>
          case ArrayShape =>
          case ScalarShape => ctx.AddOption(Explode);
        }
      }
      match ctx.shape {
        case MapShape => r := MapOf(ctx);
        case ArrayShape => r := ArrayOf(ctx);
        case ScalarShape => r := ValueOf(ctx);
      }
    }
  }

  /** The tag after `Value`'s defaulting: no options means form, exploded for a scalar. */
  function WithDefaults(tag: Tag, shape: Shape): Tag {
    if |tag.options| > 0 then tag
    else if shape == ScalarShape then tag.(options := [Form, Explode])
    else tag.(options := [Form])
  }

  function Unprovided(tag: Tag): Error {
    Prefixed(CookieOrigin, NotProvided(tag.name, [Form]))
  }

  function Unsupported(tag: Tag): Error {
    Prefixed(CookieOrigin, NotSupported(tag.name, Explode))
  }

  /** `valueOf` on a looked-up cookie. */
  function Scalar(cookie: Option<string>, tag: Tag): Result<Payload, Error> {
    match cookie
    case None => Ok(Nothing)
    case Some(v) => if HasOption(tag, Form) then Ok(Text(v)) else Err(Unprovided(tag))
  }

  /**
   * `arrayOf` on a looked-up cookie: the comma-separated items, always as a
   * list (a one-item list stays a list), and a nil list for a missing cookie.
   */
  function Items(cookie: Option<string>, tag: Tag): Result<Payload, Error> {
    match cookie
    case None => Ok(NilList)
    case Some(v) =>
      if !HasOption(tag, Form) then Err(Unprovided(tag))
      else if HasOption(tag, Explode) then Err(Unsupported(tag))
      else Ok(List(Split(v, ",")))
  }

  /** `mapOf` on a looked-up cookie: flat comma-separated pairs. */
  function Object(cookie: Option<string>, tag: Tag): Result<Payload, Error> {
    match cookie
    case None => Ok(NilDict)
    case Some(v) =>
      if !HasOption(tag, Form) then Err(Unprovided(tag))
      else if HasOption(tag, Explode) then Err(Unsupported(tag))
      else Parsed(CookieOrigin, Split(v, ","), false)
  }

  /** What `Value` returns for a tag whose defaults are already in place. */
  function Decoded(cookies: seq<(string, string)>, tag: Tag, shape: Shape): Result<Payload, Error> {
    var cookie := FirstFold(cookies, tag.name);
    match shape
    case MapShape => Object(cookie, tag)
    case ArrayShape => Items(cookie, tag)
    case ScalarShape => Scalar(cookie, tag)
  }

  // ---------------------------------------------------------------------
  // Properties

  /**
   * Without options, every shape reads in the form style; the scalar gets
   * "explode" as well, which lists and maps would reject.
   */
  lemma DefaultOptions(tag: Tag, shape: Shape)
    requires |tag.options| == 0
    ensures HasOption(WithDefaults(tag, shape), Form)
    ensures HasOption(WithDefaults(tag, shape), Explode) <==> shape == ScalarShape
    ensures WithDefaults(tag, shape).name == tag.name
  {
    var t := WithDefaults(tag, shape);
    assert t.options[0] == Form;
    if shape == ScalarShape {
      assert t.options[1] == Explode;
    } else {
      assert t.options == [Form];
      assert Explode != Form;
    }
  }

  /** With its own defaults, a present cookie is read for every shape: no option error arises. */
  lemma DefaultsRead(cookies: seq<(string, string)>, tag: Tag, shape: Shape)
    requires |tag.options| == 0 && FirstFold(cookies, tag.name).Some?
    ensures Decoded(cookies, WithDefaults(tag, shape), shape).Ok? ||
            Decoded(cookies, WithDefaults(tag, shape), shape).error.cause.InvalidObject?
  {
    DefaultOptions(tag, shape);
    var v := FirstFold(cookies, tag.name).value;
    var t := WithDefaults(tag, shape);
    if shape == MapShape {
      assert Decoded(cookies, t, shape) == Parsed(CookieOrigin, Split(v, ","), false);
    }
  }

  /** A cookie the request lacks is no value and no error, whatever the shape or the options. */
  lemma MissingCookie(cookies: seq<(string, string)>, tag: Tag, shape: Shape)
    requires forall i :: 0 <= i < |cookies| ==> !EqualFold(cookies[i].0, tag.name)
    ensures Decoded(cookies, tag, shape) ==
      if shape == ScalarShape then Ok(Nothing)
      else if shape == ArrayShape then Ok(NilList)
      else Ok(NilDict)
  {
    assert FirstFold(cookies, tag.name) == None;
  }

  /** A present cookie under a tag without "form" is a "not provided" error for every shape. */
  lemma NotForm(cookies: seq<(string, string)>, tag: Tag, shape: Shape)
    requires FirstFold(cookies, tag.name).Some? && !HasOption(tag, Form)
    ensures Decoded(cookies, tag, shape) == Err(Prefixed(CookieOrigin, NotProvided(tag.name, ["form"])))
  {
  }

  /** A present cookie read as a list or a map under "explode" is a "not supported" error. */
  lemma ExplodeUnsupported(cookies: seq<(string, string)>, tag: Tag, shape: Shape)
    requires FirstFold(cookies, tag.name).Some? && HasOption(tag, Form) && HasOption(tag, Explode)
    requires shape != ScalarShape
    ensures Decoded(cookies, tag, shape) == Err(Prefixed(CookieOrigin, NotSupported(tag.name, "explode")))
  {
  }

  /** The value of the first cookie with the name, in any letter case, is read as is. */
  lemma ScalarRead(cookies: seq<(string, string)>, tag: Tag, i: nat)
    requires i < |cookies| && EqualFold(cookies[i].0, tag.name)
    requires forall j :: 0 <= j < i ==> !EqualFold(cookies[j].0, tag.name)
    requires HasOption(tag, Form)
    ensures Decoded(cookies, tag, ScalarShape) == Ok(Text(cookies[i].1))
  {
    var r := FirstFold(cookies, tag.name);
    assert r.Some? by {
      assert !NoneBefore(cookies, tag.name, |cookies|);
    }
    var k :| 0 <= k < |cookies| && EqualFold(cookies[k].0, tag.name)
             && cookies[k].1 == r.value && NoneBefore(cookies, tag.name, k);
    assert k == i;
  }

  /** A list cookie reads back from its form expansion: one element per item, in order. */
  lemma ListRoundTrip(tag: Tag, items: seq<string>)
    requires HasOption(tag, Form) && !HasOption(tag, Explode)
    requires |items| >= 1 && ItemsFree(items, ',')
    ensures Items(Some(Join(items, ",")), tag) == Ok(List(items))
  {
    SplitJoin(items, ",");
  }

  /** A map cookie reads back from its flat form expansion, when keys are distinct and non-empty and nothing holds ",". */
  lemma MapRoundTrip(tag: Tag, es: seq<(string, string)>)
    requires HasOption(tag, Form) && !HasOption(tag, Explode)
    requires |es| >= 1 && Distinct(es) && PairsFree(es, ',')
    ensures Object(Some(Join(Flat(es), ",")), tag) == Ok(Dict(Leaves(es)))
  {
    FlatRoundTrip(CookieOrigin, es, ",");
  }
}
