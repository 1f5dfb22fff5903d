/**
 * The errors the library returns, by category. The exact message text is not
 * modelled; each constructor names the format string it stands for.
 */
module Errors {
  import opened Values

  /** The provider whose `errorf` prefixes a message ("path: ", "query: ", ...). */
  datatype Origin = PathOrigin | QueryOrigin | HeaderOrigin | CookieOrigin

  datatype Error =
    | NotAPointer(name: string)                          // "the %v must be a pointer"
    | NotAddressable(name: string)                       // "the %v must be addressable (a pointer)"
    | CannotConvert(from: Kind, to: Kind)                // "cannot convert %v '%+v' to %v", with or without a cause
    | InvalidObject(parts: seq<string>)                  // "object value: %s invalid"
    | NotProvided(field: string, options: seq<string>)   // "field: %v option: %v not provided"
    | NotSupported(field: string, option: string)        // "field: '%v' option: [%v] not supported"
    | CannotParseKey(key: string)                        // "cannot parse key: %s"
    | NotParsed(field: string, cause: Error)             // "field: '%v' not parsed: %v"
    | Prefixed(origin: Origin, cause: Error)             // the provider's "<origin>: " prefix
    | Panic(reason: string)                              // a run-time panic of the Go code
    | Failed(message: string)                            // an error passed through from a hook
}
