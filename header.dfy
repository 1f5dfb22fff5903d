/**
 * The header provider (header.go): reads one request header, looked up by
 * its canonical MIME name, in the simple style of RFC 6570 and returns a
 * string, a list or a map of strings.
 */
module HeaderParams {
  import opened Wrappers
  import opened Strings
  import opened Assoc
  import opened Tags
  import opened Errors
  import opened Pairs
  import opened Payloads
  import opened Contexts
  import opened Expansion

  /** The request's header: canonical names, each with its values in order. */
  datatype HeaderProvider = HeaderProvider(header: map<string, seq<string>>)
  {
    /** `valueOf`. */
    method ValueOf(ctx: Context) returns (r: Result<Payload, Error>)
      ensures r == Scalar(HeaderOf(header, ctx.tag.name), ctx.tag)
    {
      var h := HeaderOf(header, ctx.tag.name);
      if h.None? {
        return Ok(Nothing);
      }
      if !HasOption(ctx.tag, Simple) {
        return Err(Unprovided(ctx.tag));
      }
      r := Ok(Text(h.value));
    }

    /** `arrayOf`, with its copy into a fresh `[]interface{}`. */
    method ArrayOf(ctx: Context) returns (r: Result<Option<seq<string>>, Error>)
      ensures r == Items(HeaderOf(header, ctx.tag.name), ctx.tag)
    {
      var h := HeaderOf(header, ctx.tag.name);
      if h.None? {
        return Ok(None);
      }
      if !HasOption(ctx.tag, Simple) {
        return Err(Unprovided(ctx.tag));
      }
      var parts := Split(h.value, ",");
      var result := ConvertArray(parts);
      assert result == parts;
      r := Ok(Some(result));
    }

    /** `mapOf`, running the source's map-literal loops. */
    method MapOf(ctx: Context) returns (r: Result<Payload, Error>)
      ensures r == Object(HeaderOf(header, ctx.tag.name), ctx.tag)
    {
      var h := HeaderOf(header, ctx.tag.name);
      if h.None? {
        return Ok(NilDict);
      }
      if !HasOption(ctx.tag, Simple) {
        return Err(Unprovided(ctx.tag));
      }
      var parts := Split(h.value, ",");
      var m;
      if HasOption(ctx.tag, Explode) {
        m := ParseExplodeMap(parts);
      } else {
        m := ParseConvertMap(parts);
      }
      match m {
        case Err(e) => r := Err(Prefixed(HeaderOrigin, e));
        case Ok(es) => r := Ok(Dict(Leaves(es)));
      }
    }

    /**
     * `Value`: with no options the tag gets "simple"; then the target's
     * shape alone picks the scalar, list or map reading.
     */
    method Value(ctx: Context) returns (r: Result<Payload, Error>)
      modifies ctx
      ensures ctx.tag == WithDefaults(old(ctx.tag))
      ensures r == Decoded(header, ctx.tag, ctx.shape)
    {
      if |ctx.tag.options| == 0 {
        ctx.AddOption(Simple);
      }
      match ctx.shape {
        case MapShape =>
          r := MapOf(ctx);
        case ArrayShape =>
          var values := ArrayOf(ctx);
          match values {
            case Err(e) => r := Err(e);
            case Ok(vs) => r := Ok(ConvertValue(vs));
          }
        case ScalarShape =>
          r := ValueOf(ctx);
      }
    }
  }

  // ---------------------------------------------------------------------
  // Canonical header names

  function Upper(c: char): char {
    if 'a' <= c <= 'z' then (c as int - 'a' as int + 'A' as int) as char else c
  }

  /** A character allowed in a header name (a token character of RFC 7230, section 3.2.6). */
  predicate IsTokenChar(c: char) {
    'a' <= c <= 'z' || 'A' <= c <= 'Z' || '0' <= c <= '9' || c in "!#$%&'*+-.^_`|~"
  }

  predicate IsToken(s: string) {
    forall i :: 0 <= i < |s| ==> IsTokenChar(s[i])
  }

  /** Upper-cases the first letter and every letter after a hyphen, lower-cases the rest. */
  function CanonicalFrom(s: string, upper: bool): (r: string)
    ensures |r| == |s|
  {
    if s == [] then []
    else [if upper then Upper(s[0]) else Lower(s[0])] + CanonicalFrom(s[1..], s[0] == '-')
  }

  /**
   * `textproto.CanonicalMIMEHeaderKey`: "content-type" becomes
   * "Content-Type"; a name holding a character that is not a token
   * character is returned unchanged.
   */
  function CanonicalKey(name: string): string {
    if IsToken(name) then CanonicalFrom(name, true) else name
  }

  /** `header`: present when the canonical name is a key; its first value, or "" when it has none. */
  function HeaderOf(header: map<string, seq<string>>, name: string): Option<string> {
    var key := CanonicalKey(name);
    if key !in header then None
    else if |header[key]| == 0 then Some("")
    else Some(header[key][0])
  }

  // ---------------------------------------------------------------------
  // The readings

  /** The tag after `Value`'s defaulting: no options means simple. */
  function WithDefaults(tag: Tag): Tag {
    if |tag.options| == 0 then tag.(options := [Simple]) else tag
  }

  function Unprovided(tag: Tag): Error {
    Prefixed(HeaderOrigin, NotProvided(tag.name, [Simple]))
  }

  /** `valueOf` on a looked-up header. */
  function Scalar(h: Option<string>, tag: Tag): Result<Payload, Error> {
    match h
    case None => Ok(Nothing)
    case Some(v) => if HasOption(tag, Simple) then Ok(Text(v)) else Err(Unprovided(tag))
  }

  /** `arrayOf` on a looked-up header: the comma-separated items, None for a missing header. */
  function Items(h: Option<string>, tag: Tag): Result<Option<seq<string>>, Error> {
    match h
    case None => Ok(None)
    case Some(v) => if HasOption(tag, Simple) then Ok(Some(Split(v, ","))) else Err(Unprovided(tag))
  }

  /** `mapOf` on a looked-up header: `k=v` items when exploded, a flat list otherwise. */
  function Object(h: Option<string>, tag: Tag): Result<Payload, Error> {
    match h
    case None => Ok(NilDict)
    case Some(v) =>
      if !HasOption(tag, Simple) then Err(Unprovided(tag))
      else Parsed(HeaderOrigin, Split(v, ","), HasOption(tag, Explode))
  }

  /** What `Value` returns for a tag whose defaults are already in place. */
  function Decoded(header: map<string, seq<string>>, tag: Tag, shape: Shape): Result<Payload, Error> {
    var h := HeaderOf(header, tag.name);
    match shape
    case MapShape => Object(h, tag)
    case ArrayShape =>
      (match Items(h, tag)
       case Err(e) => Err(e)
       case Ok(vs) => Ok(ConvertValue(vs)))
    case ScalarShape => Scalar(h, tag)
  }

  // ---------------------------------------------------------------------
  // Properties

  lemma UpperOfFold(a: char, b: char)
    requires Lower(a) == Lower(b)
    ensures Upper(a) == Upper(b)
    ensures a == '-' <==> b == '-'
  {
  }

  lemma {:induction false} CanonicalFromFold(a: string, b: string, upper: bool)
    requires LowerAll(a) == LowerAll(b)
    ensures CanonicalFrom(a, upper) == CanonicalFrom(b, upper)
    decreases |a|
  {
    if a != [] {
      assert |b| == |a|;
      assert Lower(a[0]) == LowerAll(a)[0] == LowerAll(b)[0] == Lower(b[0]);
      UpperOfFold(a[0], b[0]);
      assert LowerAll(a[1..]) == LowerAll(b[1..]) by {
        forall i | 0 <= i < |a| - 1 ensures LowerAll(a[1..])[i] == LowerAll(b[1..])[i] {
          assert LowerAll(a)[i + 1] == LowerAll(b)[i + 1];
        }
      }
      CanonicalFromFold(a[1..], b[1..], a[0] == '-');
    }
  }

  /** Header names that differ only in letter case find the same header. */
  lemma CaseInsensitiveLookup(header: map<string, seq<string>>, a: string, b: string)
    requires EqualFold(a, b) && IsToken(a) && IsToken(b)
    ensures HeaderOf(header, a) == HeaderOf(header, b)
  {
    CanonicalFromFold(a, b, true);
  }

  lemma {:induction false} CanonicalFromTwice(s: string, upper: bool)
    ensures CanonicalFrom(CanonicalFrom(s, upper), upper) == CanonicalFrom(s, upper)
    decreases |s|
  {
    if s != [] {
      var c := if upper then Upper(s[0]) else Lower(s[0]);
      assert c == '-' <==> s[0] == '-';
      CanonicalFromTwice(s[1..], s[0] == '-');
      assert CanonicalFrom(s, upper)[1..] == CanonicalFrom(s[1..], s[0] == '-');
    }
  }

  lemma {:induction false} CanonicalFromToken(s: string, upper: bool)
    requires IsToken(s)
    ensures IsToken(CanonicalFrom(s, upper))
    decreases |s|
  {
    if s != [] {
      CanonicalFromToken(s[1..], s[0] == '-');
    }
  }

  /** A canonical name is its own canonical form. */
  lemma CanonicalIdempotent(name: string)
    ensures CanonicalKey(CanonicalKey(name)) == CanonicalKey(name)
  {
    if IsToken(name) {
      CanonicalFromToken(name, true);
      CanonicalFromTwice(name, true);
    }
  }

  /** A tag without options reads the simple style. */
  lemma DefaultIsSimple(tag: Tag)
    requires |tag.options| == 0
    ensures HasOption(WithDefaults(tag), Simple) && WithDefaults(tag).name == tag.name
  {
    assert WithDefaults(tag).options[0] == Simple;
  }

  /** A header the request lacks is no value and no error, whatever the shape or the options. */
  lemma MissingHeader(header: map<string, seq<string>>, tag: Tag, shape: Shape)
    requires CanonicalKey(tag.name) !in header
    ensures Decoded(header, tag, shape) ==
      if shape == ScalarShape then Ok(Nothing)
      else if shape == ArrayShape then Ok(NilList)
      else Ok(NilDict)
  {
  }

  /** A present header under a tag without "simple" is a "not provided" error for every shape. */
  lemma NotSimple(header: map<string, seq<string>>, tag: Tag, shape: Shape)
    requires CanonicalKey(tag.name) in header && !HasOption(tag, Simple)
    ensures Decoded(header, tag, shape) == Err(Prefixed(HeaderOrigin, NotProvided(tag.name, ["simple"])))
  {
  }

  /** The first value of a present header is read as is; a header with no values reads as "". */
  lemma FirstValueRead(header: map<string, seq<string>>, tag: Tag)
    requires CanonicalKey(tag.name) in header && HasOption(tag, Simple)
    ensures |header[CanonicalKey(tag.name)]| > 0 ==>
      Decoded(header, tag, ScalarShape) == Ok(Text(header[CanonicalKey(tag.name)][0]))
    ensures |header[CanonicalKey(tag.name)]| == 0 ==> Decoded(header, tag, ScalarShape) == Ok(Text(""))
  {
  }

  /**
   * A list header reads back from its simple expansion: one element per
   * item, in order, or the item itself when there is one.
   */
  lemma ListRoundTrip(header: map<string, seq<string>>, tag: Tag, items: seq<string>, more: seq<string>)
    requires HasOption(tag, Simple) && |items| >= 1 && ItemsFree(items, ',')
    requires CanonicalKey(tag.name) in header
    requires header[CanonicalKey(tag.name)] == [ExpandList(SimpleStyle, HasOption(tag, Explode), tag.name, items)] + more
    ensures Decoded(header, tag, ArrayShape) == Ok(ConvertValue(Some(items)))
  {
    var joined := Join(items, ",");
    assert ExpandList(SimpleStyle, HasOption(tag, Explode), tag.name, items) == joined;
    assert HeaderOf(header, tag.name) == Some(joined);
    SplitJoin(items, ",");
    assert Items(Some(joined), tag) == Ok(Some(items));
  }

  /**
   * A map header reads back from its simple expansion, exploded (`k=v`
   * items) or not (flat pairs), when keys are distinct and non-empty and
   * neither keys nor values hold "," (nor "=" when exploded).
   */
  lemma MapRoundTrip(tag: Tag, es: seq<(string, string)>)
    requires HasOption(tag, Simple) && |es| >= 1 && Distinct(es) && PairsFree(es, ',')
    requires HasOption(tag, Explode) ==> PairsFree(es, '=')
    ensures Object(Some(ExpandMap(SimpleStyle, HasOption(tag, Explode), tag.name, es)), tag) == Ok(Dict(Leaves(es)))
  {
    var explode := HasOption(tag, Explode);
    var parts := if explode then Assigns(es) else Flat(es);
    var s := ExpandMap(SimpleStyle, explode, tag.name, es);
    SimpleMapForm(explode, tag.name, es);
    assert Object(Some(s), tag) == Parsed(HeaderOrigin, Split(Join(parts, ","), ","), explode);
    if explode {
      ExplodedRoundTrip(HeaderOrigin, es, ",");
    } else {
      FlatRoundTrip(HeaderOrigin, es, ",");
    }
  }

  lemma SimpleMapForm(explode: bool, name: string, es: seq<(string, string)>)
    ensures ExpandMap(SimpleStyle, explode, name, es) == Join(if explode then Assigns(es) else Flat(es), ",")
  {
    var parts := if explode then Assigns(es) else Flat(es);
    assert "" + Join(parts, ",") == Join(parts, ",");
  }

  /** A flat map header with an odd number of parts is an invalid object, reported with the "header: " prefix. */
  lemma OddPairs(tag: Tag, v: string)
    requires HasOption(tag, Simple) && !HasOption(tag, Explode) && |Split(v, ",")| % 2 == 1
    ensures Object(Some(v), tag) == Err(Prefixed(HeaderOrigin, InvalidObject(Split(v, ","))))
  {
  }
}
