# inflate, modelled in Dafny

`inflate` fills the fields of a Go struct from the parts of an HTTP request
and converts values between Go types. This project models its core:

- **The value providers.** `PathProvider`, `QueryProvider`,
  `HeaderProvider` and `CookieProvider` each read one named raw string: a
  route parameter, the query values, a header or a cookie. They decode it
  into a scalar, a list of strings or a string-keyed map, according to the
  style options on the field's tag:
  - simple, label and matrix (sections 3.2.2, 3.2.5 and 3.2.7 of RFC 6570);
  - form (section 3.2.8 of RFC 6570) with the explode modifier (section
    2.4.2 of RFC 6570);
  - space-delimited, pipe-delimited and deepObject, from the OpenAPI 3.0
    parameter styles.
- **The tag and struct views of `common.go`.**
  - `ParseTag` and the tag options.
  - `Struct.Fields` lists fields; `Struct.Map` and `tree` flatten a
    struct, handling squash (`~`) and `omitempty`.
  - `Struct.Array` and `Map.Values`.
  - `refer`, `elem` and `create`.
  - The map-literal parsers `convertMap` and `explodeMap`, plus
    `convertValue` and `convertArray`.
- **The `Converter`.** It copies a source value into a target of another
  type, choosing a rule by the target's kind.
- **The `Decoder`.** It walks a struct's fields in order, asks the provider
  for each field's value, converts it into the field, and recurses into
  squashed fields. `Set` and `SetDefault` are built on these.

Go values are modelled as a tagged union `Values.Value` with a type
descriptor `Values.Type`. This replaces `reflect.Value` and `reflect.Type`:

- A Go map is an association list in iteration order. Go randomises that
  order; here it is a fixed input.
- A struct is a `Record` of field values.
- A pointer is a `Ptr` that may be nil.
- An `interface{}` is a `Dyn` that may be nil.
- The invalid `reflect.Value` is `Absent`.

Where Go writes into the target in place, the model works on values:

- Each conversion returns an `Outcome`: the target's new value together
  with the error, if any. Writes made before an error therefore stay
  visible, as they do in Go.
- The loops the source writes are methods. Each is proved equal to a
  specification function, and the properties are lemmas about those
  functions.
- A `Tag` that `Value` extends with `AddOption` lives in a `Context`
  object, which the providers' `Value` methods modify.

Some inputs are modelled as plain data:

- The providers' inputs:
  - route parameters and cookies are a sequence of `(name, value)` pairs;
  - the query and the headers are a `map<string, seq<string>>`.
- The target's shape (`Scalar | Array | Map`) and its "reads one string
  through a text codec" flag are explicit.
- The text methods of struct types (`MarshalText`, `UnmarshalText`) are
  the two functions of a `Codec`, passed in as a parameter.

## Model

| member | source | states |
|---|---|---|
| Assoc.Get | common.go:278-280 | Lookup of a key in a map: None exactly when the key is absent, otherwise the value of an entry with that key |
| Assoc.PutShape | converter.go:315-317 | Map assignment overwrites an existing key in place and appends a new key at the end |
| Assoc.GetPut | converter.go:315-317 | After `m[k] = v`, looking up `k` gives `v` |
| Assoc.GetPutOther | converter.go:315-317 | `m[k] = v` leaves the lookup of every other key unchanged |
| Assoc.PutDistinct | converter.go:315-317 | Assignment keeps map keys pairwise distinct |
| Assoc.PutKeepsKeys | converter.go:315-317 | Assignment never removes a key |
| Assoc.PutEntries | converter.go:315-317 | Assignment adds no entry besides the one assigned |
| Strings.IndexOf | common.go:473 | Finds the first position of the separator; None means it does not occur |
| Strings.Split | path.go:121 | `strings.Split` always gives at least one part |
| Strings.Cut | common.go:473 | `strings.SplitN(s, sep, 2)` gives one or two parts |
| Strings.CutSpec | common.go:473 | The cut has two parts exactly when the separator occurs; the first part is free of it, and joining the parts gives back the string |
| Strings.TrimPrefix | path.go:120 | Removes one leading prefix when the string starts with it, otherwise changes nothing |
| Strings.JoinSplit | path.go:121 | Joining the parts of a split with the same separator gives back the string |
| Strings.SplitPartsFree | path.go:121 | No part of a split contains the separator |
| Strings.SplitNoSeparator | path.go:121 | A string without the separator splits into itself alone |
| Strings.SplitJoin | path.go:121 | Splitting undoes joining when no part holds the separator's first character |
| Numbers.ToUnsigned | converter.go:162 | `uint64(i)` lies in the 64-bit unsigned range and leaves non-negative int64s unchanged |
| Numbers.ToSigned | converter.go:135 | `int64(u)` lies in the int64 range and leaves values below 2^63 unchanged |
| Numbers.CastsRoundTrip | converter.go:135 | The two casts undo each other on the 64-bit ranges |
| Numbers.ParseBool | converter.go:113 | `strconv.ParseBool` accepts exactly the six true spellings and the six false spellings |
| Numbers.FormatNat | converter.go:84 | The decimal spelling is one or more digits without a leading zero |
| Numbers.DigitsOfFormat | converter.go:84 | Reading back the decimal spelling of n gives n |
| Numbers.FormatInt | converter.go:82 | `strconv.FormatInt` is non-empty and starts with '-' exactly for negative numbers |
| Numbers.FormatUint | converter.go:84 | `strconv.FormatUint` is one or more digits |
| Numbers.ParseUint | converter.go:174 | Succeeds exactly on a non-empty run of digits whose value fits in 64 bits, giving that value |
| Numbers.ParseInt | converter.go:145 | A successful parse is an int64, and non-negative when the text starts with a digit |
| Numbers.ParseFormatInt | converter.go:145 | Parsing the formatted int64 gives it back |
| Numbers.ParseFormatUint | converter.go:174 | Parsing the formatted uint64 gives it back |
| Numbers.FormatParseUint | converter.go:174 | A canonical decimal text is reproduced by formatting its parsed value |
| Values.Zero | common.go:335-341 | `reflect.Zero(t)` has type t |
| Values.Elem | common.go:315-324 | Looks through a pointer or interface; any other value is returned unchanged |
| Values.Create | common.go:335-341 | A fresh zero value of t, or of t's pointee type when t is a pointer type |
| Values.Refer | common.go:326-333 | A non-zero field is decoded into its own element; a zero field into a fresh value of its type |
| Values.Assign | common.go:343-370 | When the value's type is assignable to t, the value is stored; any stored result has type t |
| Values.ZeroIsZero | common.go:178-185 | The zero value of every type is zero |
| Values.ReferZero | common.go:326-333 | `refer` on a zero field gives a zero value |
| Tags.ParseTag | common.go:136-168 | Never nil. Under "default" the whole literal is the name with no options; under any other key, name and options joined by "," give back the literal |
| Tags.HasOptionIn | common.go:120-128 | True exactly when some option equals the given one ignoring ASCII letter case |
| Tags.HasOptionAppend | common.go:131-133 | After appending an option, an option is present iff it was before or matches the appended one |
| Tags.ViewOf | common.go:27-60 | A field is listed iff it is exported and not named "-". An empty name becomes the declared field name unless the key is "default"; index and type are kept |
| Tags.ListFields | common.go:27-60 | The source's index loop computes exactly `Fields` |
| Tags.FieldsFromSound | common.go:27-60 | Every listed view is the view of its own field, and indexes increase |
| Tags.FieldsFromComplete | common.go:27-60 | Every field that is not skipped is listed |
| Tags.FieldsSpec | common.go:27-60 | `Struct.Fields` lists exactly the exported fields not named "-", in declaration order, under their tag names |
| Contexts.ShapeOf | path.go:42-54 | Maps and structs read as maps, arrays and slices as lists, everything else as a scalar |
| Contexts.Context.constructor | decoder.go:84-89 | The context holds the field's name, type, zero flag and tag |
| Contexts.Context.AddOption | common.go:131-133 | Appends exactly one option and keeps the key, the name and the earlier options |
| Pairs.PutAllGetOther | common.go:438-464 | A key no pair assigns keeps its earlier lookup |
| Pairs.PutAllGetLast | common.go:438-464 | A key maps to the value of the last pair that assigns it |
| Pairs.PutAllDistinct | common.go:438-464 | Assigning pairs keeps keys distinct |
| Pairs.PutAllSpec | common.go:438-464 | Assigning pairs into an empty map binds exactly their keys, each to its last value, without duplicates |
| Pairs.PairsOf | common.go:448-461 | A flat list read two at a time |
| Pairs.ConvertMap | common.go:438-464 | `convertMap` fails, reporting the parts, exactly when the count is odd or some key is empty |
| Pairs.ParseConvertMap | common.go:438-464 | The source's loop over odd indexes computes `ConvertMap` |
| Pairs.ConvertMapSpec | common.go:438-464 | A successful `convertMap` binds exactly the even-indexed parts, each to the part after its last occurrence, without duplicates |
| Pairs.KeyValueSpec | common.go:473-488 | A part without "=" is a key with value ""; otherwise key + "=" + value gives the part back, with the key free of "=" |
| Pairs.ExplodeMap | common.go:466-498 | `explodeMap` fails, reporting the parts, exactly when some key is empty |
| Pairs.ParseExplodeMap | common.go:466-498 | The source's loop computes `ExplodeMap` |
| Pairs.ExplodeMapSpec | common.go:466-498 | A successful `explodeMap` binds exactly the keys of the parts, each to the value of its last part, without duplicates |
| Pairs.ConvertArray | common.go:508-516 | `convertArray` preserves length, order and contents |
| Payloads.Leaves | common.go:460 | A map of strings, as the map-literal parsers build it |
| Payloads.ConvertValue | common.go:500-506 | A one-element list is unwrapped; any other list is passed on; a nil list stays nil |
| Payloads.ToValue | decoder.go:96 | A provider's nil becomes the invalid value and nothing else does |
| Lookup.FirstFold | path.go:188-196 | The value of the first pair whose name equals the given one ignoring ASCII letter case; None iff there is no such pair |
| Lookup.Find | path.go:188-196 | The linear scan computes `FirstFold` |
| Lookup.FoldInsensitive | cookie.go:122-130 | Names that differ only in the case of ASCII letters find the same value |
| Expansion.Flat | common.go:438-464 | The flat rendering k1,v1,k2,v2 that `convertMap` reads |
| Expansion.Assigns | common.go:466-498 | The k=v rendering that `explodeMap` reads |
| Expansion.PutAllFresh | common.go:438-464 | Assigning pairs with distinct keys gives exactly those pairs |
| Expansion.ConvertMapFlat | common.go:438-464 | `convertMap` reads a flat rendering back into its pairs |
| Expansion.KeyValueOfAssign | common.go:473 | `SplitN(k + "=" + v, "=", 2)` gives back k and v when k has no "=" |
| Expansion.ExplodeMapAssigns | common.go:466-498 | `explodeMap` reads a k=v rendering back into its pairs |
| Expansion.ExplodedRoundTrip | common.go:466-498 | Exploded pairs joined by a separator read back as the same map |
| Expansion.FlatRoundTrip | common.go:438-464 | Flat pairs joined by a separator read back as the same map |
| PathParams.PathProvider.Param | path.go:188-196 | `param` returns the first parameter matching the name ignoring ASCII letter case |
| PathParams.PathProvider.ValueOf | path.go:57-80 | `valueOf` is the scalar reading of the looked-up parameter |
| PathParams.PathProvider.ArrayOf | path.go:82-130 | `arrayOf`, with its copy loop, is the list reading of the looked-up parameter |
| PathParams.PathProvider.MapOf | path.go:132-186 | `mapOf`, with its map-literal loops, is the map reading of the looked-up parameter |
| PathParams.PathProvider.Value | path.go:33-55 | With no options the tag gets "simple"; then the codec flag and the shape pick the reading |
| PathParams.ArrayLayout | path.go:94-117 | Every list style splits at a non-empty separator |
| PathParams.MapLayout | path.go:144-168 | Every map style splits at a non-empty separator |
| PathParams.DefaultIsSimple | path.go:34-36 | A tag without options selects the simple style and keeps its name |
| PathParams.MissingParameter | path.go:57-62 | A missing parameter is no value and no error, for every shape and every option set |
| PathParams.NoStyle | path.go:73-79 | A present parameter with none of simple, label or matrix is a "not provided" error naming the three |
| PathParams.ScalarRoundTrip | path.go:64-72 | The scalar reading undoes the simple, label or matrix expansion of a value |
| PathParams.ListRoundTrip | path.go:119-129 | The list reading undoes the expansion in each style, exploded or not: one element per item, in order |
| PathParams.MapRoundTrip | path.go:169-185 | The map reading undoes the expansion in each style, flat or k=v |
| PathParams.OddPairs | path.go:181-183 | A flat map value with an odd number of parts is an invalid-object error with the "path: " prefix |
| QueryParams.QueryProvider.QueryMap | query.go:207-216 | `queryMap`'s loop binds each parameter to its first value |
| QueryParams.QueryProvider.ReadDeep | query.go:163-197 | `deepObject` as written walks every key of the query |
| QueryParams.QueryProvider.ReadOwnDeep | query.go:163-197 | The corrected `deepObject` walks only the field's own keys |
| QueryParams.QueryProvider.ValueOf | query.go:72-94 | `valueOf` is the scalar reading of the parameter's values |
| QueryParams.QueryProvider.ArrayOf | query.go:96-127 | `arrayOf`, with the copy of `convertArray`, is the list reading of the values |
| QueryParams.QueryProvider.MapOf | query.go:129-161 | `mapOf` is the map reading; a deep object is read as written, over every key of the query |
| QueryParams.QueryProvider.Value | query.go:47-70 | With no options the tag gets "form" and then "explode"; then the codec flag and the shape pick the reading |
| QueryParams.Firsts | query.go:207-216 | Every pair is a parameter with its first value, and every parameter with a value is present |
| QueryParams.ListSeparator | query.go:103-120 | Each list style splits at a one-character separator |
| QueryParams.Own | query.go:163-197 | Keeps only the pairs whose key starts with the field name and "[" |
| QueryParams.DeepStops | query.go:175-177 | Once the walk fails, later keys do not change the error |
| QueryParams.OwnDeepStops | query.go:175-177 | The same for the walk over the field's own keys |
| QueryParams.QueryMapSpec | query.go:207-216 | `queryMap` binds every parameter with at least one value to its first value and nothing else, without duplicates |
| QueryParams.MissingValues | query.go:73-76 | A parameter with no values gives no value, a nil list, or a nil map for an unexploded form map |
| QueryParams.ScalarStyles | query.go:78-93 | Form gives the first value; space-delimited, pipe-delimited and deep-object are "not supported"; anything else is "not provided" |
| QueryParams.ListRoundTrip | query.go:122-126 | Unexploded lists split the first value at the style's separator; exploded lists are all the values in order |
| QueryParams.FormMapRoundTrip | query.go:136-143 | An unexploded form map reads back from its flat rendering in the first value |
| QueryParams.ExplodedFormMap | query.go:131-133 | An exploded form map is the whole query, each parameter with its first value |
| QueryParams.MapStyleErrors | query.go:144-160 | Space-delimited, pipe-delimited and an exploded deep object are "not supported" for maps; with no map style the error names form, space- and pipe-delimited |
| QueryParams.OwnDeepIgnores | query.go:163-197 | A parameter that does not belong to the field leaves the corrected deep-object reading as it was |
| QueryParams.OwnDeepReads | query.go:166-194 | The field's own `name[k1][k2]=v` reads as v stored under the path k1, k2 |
| QueryParams.DeepRejectsOthers | query.go:166-177 | As written, a parameter not starting with the field name or "[" makes the whole reading fail |
| QueryParams.DeepObjectWithOtherParameter | query.go:163-197 | As written, `id[role]=admin&page=2` read as deep object `id` fails on `page` |
| QueryParams.OwnDeepWithOtherParameter | query.go:163-197 | Corrected, the same query gives `{role: admin}` |
| QueryParams.ProviderDeepObjectWithOtherParameter | query.go:129-197 | Through the provider's map reading, the query `id[role]=admin&page=2` read as deep object `id` fails on `page` |
| QueryParams.IdRole | query.go:163-197 | `id[role]=admin` alone gives `{role: admin}` both as written and corrected |
| QueryParams.OwnDeepAgrees | query.go:163-197 | When every parameter belongs to the field, the corrected reading equals the one as written |
| DeepObjects.RunLength | query.go:219-220 | A token is the longest bracket-free run, ending at a bracket or at the end |
| DeepObjects.ParseKey | query.go:218-266 | The scanner loop with its `started` flag computes `KeyPath` |
| DeepObjects.PathRoundTrip | query.go:218-266 | A path of keys written in brackets parses back to exactly those keys |
| DeepObjects.ParseRendered | query.go:218-266 | Parsing rendered groups collects their keys and ends outside any bracket |
| DeepObjects.StrayClose | query.go:245-248 | A "]" with no bracket open is an error |
| DeepObjects.WordOutside | query.go:258-261 | A token outside brackets is an error |
| DeepObjects.NestedOpen | query.go:238-241 | A "[" inside an open bracket is an error |
| DeepObjects.OpenedTwice | query.go:238-241 | Inside an open bracket, an optional word and then "[" is an error |
| DeepObjects.Unclosed | query.go:252-255 | Input that ends inside an open bracket is an error |
| DeepObjects.InsertThenAt | query.go:179-193 | After storing v under a path, the path leads to v |
| DeepObjects.InsertKeepsOthers | query.go:179-193 | Storing under a path leaves every other top-level key as it was |
| DeepObjects.InsertReusesMap | query.go:185-192 | An intermediate key holding a map is reused and keeps its other entries |
| DeepObjects.InsertReplaces | query.go:185-190 | An intermediate key holding a string, or nothing, gets a fresh map holding only the next key |
| DeepObjects.InsertDistinct | query.go:179-193 | Storing under a path keeps the keys of the outer map distinct |
| HeaderParams.HeaderProvider.ValueOf | header.go:53-65 | `valueOf` is the scalar reading of the looked-up header |
| HeaderParams.HeaderProvider.ArrayOf | header.go:67-89 | `arrayOf`, with its copy loop, is the list reading |
| HeaderParams.HeaderProvider.MapOf | header.go:91-118 | `mapOf`, with its map-literal loops, is the map reading |
| HeaderParams.HeaderProvider.Value | header.go:33-51 | With no options the tag gets "simple"; then the shape picks the reading |
| HeaderParams.CanonicalFrom | header.go:121 | Canonicalisation keeps the length of the name |
| HeaderParams.CaseInsensitiveLookup | header.go:120-129 | Header names that differ only in letter case find the same header |
| HeaderParams.CanonicalIdempotent | header.go:121 | A canonical header name is its own canonical form |
| HeaderParams.DefaultIsSimple | header.go:34-36 | A tag without options selects simple and keeps its name |
| HeaderParams.MissingHeader | header.go:53-58 | A missing header is no value and no error, for every shape and every option set |
| HeaderParams.NotSimple | header.go:60-62 | A present header under a tag without "simple" is "not provided" for every shape, even with explode |
| HeaderParams.FirstValueRead | header.go:120-129 | A present header reads as its first value, or "" when it has none |
| HeaderParams.ListRoundTrip | header.go:78-88 | A list header reads back from its comma expansion, and a single item is unwrapped |
| HeaderParams.MapRoundTrip | header.go:102-117 | A map header reads back from its k=v or flat expansion |
| HeaderParams.OddPairs | header.go:113-115 | A flat map header with an odd number of parts is an invalid-object error with the "header: " prefix |
| CookieParams.CookieProvider.Cookie | cookie.go:122-130 | `cookie` returns the first cookie matching the name ignoring ASCII letter case |
| CookieParams.CookieProvider.ValueOf | cookie.go:52-64 | `valueOf` is the scalar reading of the looked-up cookie |
| CookieParams.CookieProvider.ArrayOf | cookie.go:66-92 | `arrayOf`, with its copy loop, is the list reading |
| CookieParams.CookieProvider.MapOf | cookie.go:94-120 | `mapOf`, with its map-literal loop, is the map reading |
| CookieParams.CookieProvider.Value | cookie.go:30-50 | With no options the tag gets "form", and "explode" for scalars only; then the shape picks the reading |
| CookieParams.DefaultOptions | cookie.go:31-40 | The default options read every shape in the form style, and explode exactly for a scalar |
| CookieParams.DefaultsRead | cookie.go:31-40 | With its own default options, a present cookie never causes an option error |
| CookieParams.MissingCookie | cookie.go:53-57 | A missing cookie is no value and no error, for every shape and every option set |
| CookieParams.NotForm | cookie.go:59-61 | A present cookie under a tag without "form" is "not provided" for every shape |
| CookieParams.ExplodeUnsupported | cookie.go:77-79 | A present list or map cookie under "explode" is "not supported" |
| CookieParams.ScalarRead | cookie.go:52-64 | A scalar reads the value of the first cookie matching the name in any case of ASCII letters |
| CookieParams.ListRoundTrip | cookie.go:81-91 | A list cookie reads back from its comma expansion and is not unwrapped |
| CookieParams.MapRoundTrip | cookie.go:109-119 | A map cookie reads back from its flat expansion |
| Records.FieldAt | common.go:33 | A field's value is strictly smaller than its struct |
| Records.Flatten | common.go:73-93 | `tree` over the listed fields keeps the keys of the map distinct |
| Records.AddField | common.go:75-91 | One field of `tree` keeps the keys distinct |
| Records.Lift | common.go:75-82 | A squashed field adds the entries of the struct it holds, keeping keys distinct |
| Records.FlattenEntries | common.go:73-93 | Every entry `tree` leaves was there before or comes from a field of the struct |
| Records.TreeOf | common.go:63-71 | `Struct.Map` has distinct keys, and every entry comes from a field of the struct |
| Records.Tree | common.go:73-93 | The recursive `tree` loop computes `Flatten` |
| Records.MapOfStruct | common.go:63-71 | `Struct.Map` is a non-nil `map[string]interface{}` holding `TreeOf` |
| Records.FlattenFlat | common.go:85-91 | Without squashed fields, each name maps to its last contributing field (a zero `omitempty` field does not contribute), or to what the map held |
| Records.MapOfFlatRecord | common.go:63-93 | Without squashed fields, `Struct.Map` maps each name to its last contributing field |
| Records.NoSquashKey | common.go:75-82 | A squashed field's own name "~" never becomes a key |
| Records.SquashLifts | common.go:75-82 | A struct whose only field squashes a struct has exactly that struct's map |
| Records.FieldValues | common.go:96-110 | The values of the listed fields, boxed as `interface{}`, in order |
| Records.FieldArray | common.go:96-110 | `Struct.Array` as intended: exactly the listed fields' values, in declaration order |
| Records.StructArray | common.go:96-110 | `Struct.Array` as written: one nil entry per listed field, followed by exactly the field values of `FieldArray` |
| Records.ArrayOfStruct | common.go:96-110 | The `make` with one nil per field followed by the append loop computes `StructArray` |
| Records.EntryValues | common.go:283-298 | A map's values in iteration order |
| Records.MapValues | common.go:283-298 | `Map.Values` is a slice of the element type holding the map's values in order |
| Converters.SetTo | common.go:343-352 | `set` never changes the target's type |
| Converters.SetField | converter.go:261 | Setting one field changes no other field |
| Converters.Bytes | converter.go:333-337 | A raw message's bytes, one per character |
| Converters.Conv | converter.go:31-71 | `convert` never changes the target's type |
| Converters.ToRaw | converter.go:323-377 | A `json.RawMessage` target is converted as a byte slice and the message itself is kept |
| Converters.ToString | converter.go:73-100 | The result is a string; on an error the target is unchanged; a non-nil pointer to a struct with `MarshalText` converts exactly when `MarshalText` succeeds, giving its text |
| Converters.MarshalInto | converter.go:435-448 | `marshalText` succeeds exactly when the struct's `MarshalText` does, and a failure keeps the target |
| Converters.ToBool | converter.go:102-128 | The result is a bool; on an error the target is unchanged |
| Converters.ToInt | converter.go:130-157 | The result is an int; on an error the target is unchanged |
| Converters.ToUint | converter.go:159-186 | The result is a uint; on an error the target is unchanged |
| Converters.ToStruct | converter.go:217-239 | Conversion into a struct keeps its type |
| Converters.KeyedConvs | converter.go:241-265 | One key and value conversion per listed field |
| Converters.StoreFields | converter.go:241-265 | The field loop keeps the struct's type and number of fields |
| Converters.ToMap | converter.go:267-289 | Conversion into a map keeps its type |
| Converters.MapFromMap | converter.go:291-321 | Conversion from a map keeps the target's type |
| Converters.EntryConvs | converter.go:291-321 | One key and value conversion per entry |
| Converters.Merge | converter.go:291-321 | The entry loop keeps the target map's key type, element type and nil-ness |
| Converters.ToArray | converter.go:323-354 | Conversion into a slice or array keeps its type |
| Converters.ArrayItems | converter.go:323-354 | The items read from the source are all smaller than the source; a struct gives `Struct.Array` as written |
| Converters.ItemConvs | converter.go:356-382 | One conversion per source item |
| Converters.Fill | converter.go:356-382 | The item loop keeps the target's type |
| Converters.ToPtr | converter.go:384-399 | Conversion into a pointer keeps its type |
| Converters.ToIface | converter.go:401-433 | Conversion into an interface keeps its type |
| Converters.Check | common.go:372-390 | Succeeds exactly for a non-nil pointer, giving what it points to |
| Converters.Converted | converter.go:17-29 | `Convert` never changes the type of the target |
| Converters.Converter.Convert | converter.go:17-29 | The method computes `Converted` |
| Converters.Converter.ConvertValue | converter.go:31-71 | The dispatch method computes `Conv` |
| Converters.Converter.ConvertToStruct | converter.go:217-239 | The method computes `ToStruct` |
| Converters.Converter.ConvertStructFromMap | converter.go:241-265 | The field loop, stopping at the first error, computes `StoreFields` over the per-field conversions |
| Converters.Converter.ConvertField | converter.go:243-257 | One field's key conversion and, when the map holds the key, its value conversion are `KeyedConv` |
| Converters.Converter.ConvertToMap | converter.go:267-289 | The method computes `ToMap` |
| Converters.Converter.ConvertMapFromMap | converter.go:291-321 | The entry loop, stopping at the first error, computes `MapFromMap` |
| Converters.Converter.ConvertToArray | converter.go:323-354 | The method computes `ToArray` |
| Converters.Converter.SourceItems | converter.go:324-353 | The source items for the array loop are `ArrayItems` |
| Converters.Converter.ConvertToRaw | converter.go:323-377 | The method computes `ToRaw` |
| Converters.Converter.ConvertArrayFromArray | converter.go:356-382 | The item loop, stopping at the first error, computes `Fill` over the per-item conversions |
| Converters.Converter.ConvertToPtr | converter.go:384-399 | The method computes `ToPtr` |
| Converters.Converter.ConvertToBasic | converter.go:401-433 | The method computes `ToIface` |
| ConversionRules.AbsentResets | converter.go:32-36 | An invalid source resets the target to its zero value; a nil pointer target instead gets a fresh zero pointee |
| ConversionRules.SameTypeCopies | converter.go:38-41 | A source of the target's own type replaces it |
| ConversionRules.BoolStringRoundTrip | converter.go:75-80 | A bool is written as "1" or "0" and reads back as the same bool |
| ConversionRules.IntStringRoundTrip | converter.go:81-82 | An int64 written in base 10 parses back to itself |
| ConversionRules.UintStringRoundTrip | converter.go:83-84 | A uint64 written in base 10 parses back to itself |
| ConversionRules.DecimalTextRoundTrip | converter.go:173-180 | A canonical decimal text parsed into a uint and written back is unchanged |
| ConversionRules.MarshalerIntoString | converter.go:89-95 | A struct with `MarshalText`, or a non-nil pointer to one, becomes its text, and fails exactly when `MarshalText` does, with the source's kind in the error |
| ConversionRules.NilMarshalerPanics | converter.go:435-448 | A nil pointer to a struct whose `MarshalText` has a value receiver panics and leaves the target unchanged |
| ConversionRules.StringToBool | converter.go:112-122 | Text converts to a bool iff it is "" or a `ParseBool` spelling, and true iff a true spelling; otherwise an error leaves the target unchanged |
| ConversionRules.BadIntegerKeepsTarget | converter.go:144-149 | Text that is not a base-10 int64 is an error that leaves the target unchanged |
| ConversionRules.IntUintRoundTrip | converter.go:159-164 | Casting an int64 to uint and back gives it back |
| ConversionRules.BoolNumberRoundTrip | converter.go:138-143 | A bool becomes 1 or 0 as an int or uint and comes back unchanged |
| ConversionRules.Mismatches | converter.go:66-67 | An int into a struct or map, a struct without `MarshalText` into a string, or anything into an unknown kind fails with both kinds and leaves the target unchanged |
| ConversionRules.MergeGrows | converter.go:299-318 | The entry loop never removes a key, and every entry it adds holds a non-zero value |
| ConversionRules.MapConversionOnlyAdds | converter.go:291-321 | Converting between map types keeps every key of the target, and only adds non-zero entries |
| ConversionRules.MapIntoMap | converter.go:291-321 | Between different map types, conversion goes entry by entry |
| ConversionRules.RecordIntoGenericMap | converter.go:274-278 | A struct into a `map[string]interface{}` is the struct's `Struct.Map` |
| ConversionRules.ZeroEntryConvs | converter.go:300-313 | The entries of `{"a": 0, "b": 2}` convert to a string key and a uint each |
| ConversionRules.ZeroEntryMerged | converter.go:315-317 | Merging those conversions skips the zero |
| ConversionRules.ZeroEntryDropped | converter.go:291-321 | `{"a": 0, "b": 2}` into an empty `map[string]uint` gives `{"b": 2}` |
| ConversionRules.Appended | converter.go:367-377 | What a slice gains is no longer than the conversions |
| ConversionRules.SliceLoopAppends | converter.go:356-382 | A slice target keeps its items and gains each non-zero conversion, in source order |
| ConversionRules.SliceConversionAppends | converter.go:356-382 | A slice into a slice of another type appends the non-zero converted items after the old ones |
| ConversionRules.StringIntoSlice | converter.go:350-353 | A string into a nil `[]string` becomes its only item, unless it is empty |
| ConversionRules.FillSliceSucceeds | converter.go:356-377 | Over a slice target the loop ends without an error exactly when every item converts |
| ConversionRules.RawAsBytes | converter.go:59-60 | A `json.RawMessage` target goes through `convertToArray`: no error exactly when every source item converts into a byte |
| ConversionRules.RawFromEmptyList | converter.go:356-377 | A list with no items, such as a provider's nil list, leaves a `json.RawMessage` as it was, without an error |
| ConversionRules.RawFromString | converter.go:349-353 | A string into a `json.RawMessage` is one item that is not a byte, so the conversion fails with both kinds |
| ConversionRules.FillStores | converter.go:367-374 | An array target gets conversion k at index k when non-zero, and no other element changes |
| ConversionRules.FillPastEnd | converter.go:370-372 | Once the index reaches the array's length, nothing more is written |
| ConversionRules.FillSkipsZeros | converter.go:367 | Zero conversions leave the target untouched |
| ConversionRules.NilConvertsToZero | converter.go:32-36 | A nil interface converts to a zero value |
| ConversionRules.PaddingConvertsToZero | common.go:99-103 | The nil padding of `Struct.Array` as written converts to zero |
| ConversionRules.AsWrittenStructArrayStoresNothing | common.go:99-103 | As written, `convert` of a struct into an array no longer than its field count leaves the array unchanged |
| ConversionRules.AsWrittenPaddingDropped | common.go:99-103 | As written, a slice target still gets the field values, because the zero padding is dropped |
| ConversionRules.AppendedSkipsZeros | converter.go:367 | Leading zero conversions add nothing to a slice |
| ConversionRules.StructFillsArray | converter.go:343-347 | With `Struct.Array` as intended (`FieldArray`), the array loop stores field k's value at index k when it is non-zero and fits |
| ConversionRules.StoreFieldsUntouched | converter.go:249-253 | A field whose key is missing keeps its value |
| ConversionRules.StoreFieldsSets | converter.go:241-265 | Without errors, every field whose key is present gets the converted value |
| ConversionRules.StringKeyed | converter.go:243-249 | With string keys, each field looks up its own tag name |
| ConversionRules.StringKeysStored | converter.go:241-265 | With string keys, each field gets the value of the key with its name, and fields without a key are unchanged |
| ConversionRules.MapIntoStruct | converter.go:231-235 | A `map[string]...` into a struct fills each field from the key named after it and leaves the other fields unchanged |
| ConversionRules.NilPointerAllocated | converter.go:384-399 | A nil pointer target gets a pointee only when conversion into a fresh one succeeds |
| ConversionRules.EmptyInterfaceHolds | converter.go:420-423 | Any non-nil value into an empty `interface{}` is held by it |
| ConversionRules.OrderTree | common.go:63-93 | `Struct.Map` of an order holds its ID under "order_id" |
| ConversionRules.SetCopiesByFieldName | decoder.go:111-117 | `Set(&Order{ID: "0000123"}, &OrderItem{})` copies the ID through the shared field name |
| ConversionRules.OrderItemKeyed | converter.go:241-265 | An order's map gives an order item's only field its ID |
| ConversionRules.OrderStored | converter.go:255-261 | Storing an order's ID into an order item |
| ConversionRules.ConvertOrder | converter.go:226-230 | An order converts into an order item through the shared field name |
| Decoders.DefaultValue | decoder.go:136-161 | Nothing for a set field. For a zero field, the tag's literal: as JSON for a map, struct, array or slice without a text codec (looking through one pointer), as a string otherwise |
| Decoders.Source.Value | decoder.go:91 | The provider's `Value` is its reading under its defaulted tag |
| Decoders.WriteBack | decoder.go:98-104 | Decoding one field changes no other field, and after an error a fresh target is dropped |
| Decoders.FieldStep | decoder.go:67-105 | One step of `decode` changes only its field, and leaves a zero field unwritten on error |
| Decoders.DecodeFields | decoder.go:66-108 | The walk keeps the struct's type and number of fields |
| Decoders.Decoded | decoder.go:57-64 | A nil or non-pointer target is an error and is not touched; a pointer to a non-struct fails |
| Decoders.DefaultDecoderAsWritten | decoder.go:120-131 | The `SetDefault` decoder as written uses key "default", the default provider, and converts a nil default |
| Decoders.DefaultDecoder | decoder.go:120-131 | The corrected `SetDefault` decoder leaves a field alone when the provider has nothing for it, and decodes a JSON literal as JSON |
| Decoders.Provided | decoder.go:84-94 | The provider's reading of a field; the default provider never fails and has nothing exactly for a set field |
| Decoders.SetDefault | decoder.go:119-130 | `SetDefault` as written keeps the target's type, and a nil or non-pointer target is an error left untouched |
| Decoders.SetDefaultCorrected | decoder.go:119-139 | The corrected `SetDefault`, with the same checks on the target |
| Decoders.Decoder.Decode | decoder.go:57-64 | The method computes `Decoded` |
| Decoders.Decoder.DecodeStruct | decoder.go:66-108 | The field loop computes `DecodeFields` |
| Decoders.Decoder.DecodeField | decoder.go:67-105 | One loop body, recursing into a squashed struct, computes `FieldStep` |
| DecoderRules.UntouchedFrom | decoder.go:66-108 | Fields no remaining view refers to keep their values |
| DecoderRules.SkippedFieldsKept | common.go:35-44 | Decoding never writes an unexported field or one named "-" |
| DecoderRules.IndexesIncrease | common.go:27-60 | Fields are visited in declaration order |
| DecoderRules.StopsHere | decoder.go:91-104 | A failing step stops the walk at that field |
| DecoderRules.StopsLater | decoder.go:66-108 | A walk stopped at a later field, seen from before an earlier successful step |
| DecoderRules.StopsAtFirstError | decoder.go:91-104 | On an error, some field k was the last touched: later fields are unwritten, and so is field k unless the converter wrote through it |
| DecoderRules.SquashedNilPointer | decoder.go:70-82 | A squashed nil struct pointer is decoded from a fresh zero struct and stored only when that nested walk succeeds |
| DecoderRules.DefaultStepSkips | decoder.go:136-139 | With the corrected decoder, a set field's step changes nothing |
| DecoderRules.AsWrittenStepResets | decoder.go:91-104 | As written, the default decoder's step on a set scalar, map, slice or struct field resets it to zero |
| DecoderRules.DefaultsKeepFrom | decoder.go:136-139 | With the corrected decoder, a set field keeps its value through the rest of the walk |
| DecoderRules.SetDefaultKeepsSetFields | decoder.go:120-139 | The corrected `SetDefault` never overwrites a field that is already set |
| DecoderRules.JsonDefaultRefused | decoder.go:154-156 | A map or struct default without a text codec is JSON, which the converter refuses |
| DecoderRules.AsWrittenSetDefaultClears | decoder.go:120-139 | As written, `SetDefault(&Account{Category: "Jack"})` leaves an empty category |
| DecoderRules.SetDefaultKeepsCategory | decoder.go:136-139 | Corrected, the category "Jack" is kept |
| DecoderRules.SetDefaultFillsCategory | decoder.go:141-161 | An empty category gets its default "unknown" |
| DecoderRules.UserDefault | decoder.go:141-161 | A nil `*User` field is decoded into a fresh `User`, gets its literal as a `json.RawMessage`, and the converter refuses it |
| DecoderRules.AsWrittenJsonDefaultFails | decoder.go:119-161 | As written, `SetDefault(&Account{})` with a `User` JSON default fails after filling the category |
| DecoderRules.SetDefaultDecodesJson | decoder.go:119-161 | Corrected, the same call fills the category and sets the user to what `json.Unmarshal` reads from the literal |

## Left out

- Go reflection is replaced by the explicit `Value` union. This drops:
  - `CanAddr` and addressability;
  - the value-or-address probing of `set`, `variants` and `check` (common.go:343-390). `Values.Assign` treats every value as addressable.
- Floating point is out: float targets and sources, `convertToFloat` (converter.go:188-215) and `FormatFloat`. A float value is an `Opaque` value of a kind the converter has no rule for.
- Integers are Go's 64-bit `int` and `uint`. Other widths, and overflow on narrower targets, are not modelled.
- Numbers.ParseUint: the source calls `strconv.ParseUint` with base 0 (converter.go:174), which also reads `0x`, `0o` and `0b` prefixes, underscores, and a leading `0` as octal. The model reads plain decimal digits, so "010" reads as 10 where Go reads 8.
- Numbers.ParseInt: the same base-0 simplification (converter.go:145). Its contract also does not state that the parsed value is the signed decimal value of the text; only the round trip through `FormatInt` is proved.
- `MarshalText`, `UnmarshalText` and `sql.Scanner` are foreign hooks. They are functions of a `Codec`, plus capability flags on struct types. `json.Unmarshal`, which only the corrected `SetDefault` calls, is the third function of a `Codec`.
- Converters.ToString: the capability flag does not record the receiver of `MarshalText`. It is taken to be a value receiver, as on `Text` in suite_test.go, so a struct value and a pointer to it both marshal and a nil pointer panics. A pointer-receiver `MarshalText`, which Go would not find on the struct value, is not distinguished.
- Some names the source calls are not defined in its files:
  - `ctx.Kind` (cookie.go:34, header.go:38) is modelled as the shape of the target type.
  - `canUnmarshalText` (query.go:53) is modelled as the text-unmarshaler capability.
- Header lookup uses `textproto.CanonicalMIMEHeaderKey` on ASCII token names only.
- Route parameters, the query, headers and cookies are plain sequences and maps, not the `chi`, `url` and `net/http` containers.
- The bracket parser reads tokens as maximal bracket-free runs. Go's `text/scanner` also skips whitespace and comments and splits identifiers from numbers; that is not modelled.
- The default provider hands a JSON default literal for a map, struct, array or slice to the converter as a `json.RawMessage`. The converter itself has no JSON path and refuses it for a struct or a map (converter.go:236-237, 286-287), as `DecoderRules.JsonDefaultRefused` states; decoder_test.go:120-126 expects the literal to be decoded (see Findings). The JSON parser itself is not modelled: in the corrected `SetDefault` it is the `Codec`'s `json.Unmarshal` hook.
- Errors are categories such as `CannotConvert(from, to)` and `NotProvided(name, options)`, with the provider's prefix. The exact message text is not modelled.
- decoder_provider.go is not part of this model. It belongs to another package and depends on declarations not in these files.
- The constructors are wiring and are left out: `NewPathDecoder`, `NewQueryDecoder`, `NewFormDecoder`, `NewHeaderDecoder` and `NewCookieDecoder`.
- A pointer to a pointer as a conversion target is not modelled. Such conversions end in a `Panic` error.
- Decoders.FieldStep: a field of interface type that holds a value, squashed or not, ends the walk with a `Panic` error. Go panics only when the conversion writes through the held value, which is not addressable; a conversion that writes nothing or only calls `SetMapIndex` on a held map succeeds there. Tracking addressability is part of the reflection that is left out.
- Decoders.Decoder.DecodeField: the same panic for every interface field that holds a value, since it computes `FieldStep`.
- Converters.ToRaw: a byte of a `json.RawMessage` is an opaque value without its number, so the bytes a conversion would append to the message are not represented: the message's text is kept, and only whether the conversion fails is modelled.
- Strings.EqualFold and Strings.Lower fold ASCII letters only. Go's `strings.EqualFold` uses Unicode simple case folding, so "ÄNDERN" matches "ändern" and the Kelvin sign matches "k" in Go but not here. The members below inherit this.
- Tags.HasOptionIn: an option matches ignoring ASCII letter case only (common.go:122 uses `strings.EqualFold`).
- Lookup.FirstFold: a name matches ignoring ASCII letter case only (path.go:190 and cookie.go:124 use `strings.EqualFold`).
- Lookup.Find: the scan inherits the ASCII-only matching of `FirstFold`.
- Lookup.FoldInsensitive: names that differ in the case of non-ASCII letters are not shown to find the same value.
- PathParams.PathProvider.Param: a route parameter's name matches ignoring ASCII letter case only (path.go:190).
- CookieParams.CookieProvider.Cookie: a cookie's name matches ignoring ASCII letter case only (cookie.go:124).
- CookieParams.ScalarRead: "any letter case" means any case of ASCII letters.
- Map iteration order is an input, fixed by the order of the association list; Go randomises it.
- Converters.Converter.ConvertMapFromMap and Converters.Converter.ConvertArrayFromArray compute every per-item conversion before the loop. Go converts lazily and stops at the first error; the outcome is the same because conversions have no side effects here.
- Converters.Conv: its own contract states only that the target's type is kept. The conversion rules are stated by the `ConversionRules` lemmas.
- Decoders.Source.Value: the providers' readings are the functions each provider module defines; the decoder calls them through one dispatch.
- `deepObject` builds nested maps in place. The model builds them as values, so aliasing between a nested map and its parent is not represented.

## Findings

| source | as written | input that shows it | evidently intended | confidence | as-written member | corrected member |
|---|---|---|---|---|---|---|
| decoder.go:120-139 | The default provider returns nil for a field that is already set. The decoder passes that nil to the converter, which resets the field to zero (converter.go:32-36) | `SetDefault(&Account{Category: "Jack"})`, on the test's `Account` with its `Category` field alone, leaves Category "" | A set field is left alone, as decoder_test.go expects | not executed | DecoderRules.AsWrittenSetDefaultClears | DecoderRules.SetDefaultKeepsSetFields |
| query.go:163-197 | `deepObject` parses every key of the query as a bracket path after trimming the field name. An unrelated parameter fails the whole reading | `id[role]=admin&page=2` read as deep object `id` gives a parse error on `page` | Only the field's own parameters are read, giving `{role: admin}` | not executed | QueryParams.DeepObjectWithOtherParameter | QueryParams.OwnDeepWithOtherParameter |
| common.go:99-103 | `Struct.Array` makes its slice with length equal to the number of fields and then appends, so the values follow that many nil entries | A struct with one field into `[1]interface{}` leaves the array unchanged, because the value sits at index 1 | The slice holds exactly the field values, and field k goes to index k | not executed | ConversionRules.AsWrittenStructArrayStoresNothing | ConversionRules.StructFillsArray |
| decoder.go:141-161 | The default provider gives a struct field's JSON literal as a `json.RawMessage`, and `convertToStruct` has no case for it (converter.go:236-237), so the walk stops with an error | `SetDefault(&Account{})` where `User *User` has default `{"name":"Peter"}` fails with "cannot convert slice to struct" | The literal is decoded as JSON, so `User.Name` is "Peter", as decoder_test.go:120-126 expects | not executed | DecoderRules.AsWrittenJsonDefaultFails | DecoderRules.SetDefaultDecodesJson |
