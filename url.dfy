/** The WHATWG URL parser (the `URL` class the sources construct) is not part
    of this model: its three uses are left abstract, as the fields of a
    UrlParser value that every operation needing them receives. */
module Url {
  import opened Wrappers

  datatype UrlParser = UrlParser(
    /** `isValidUrl(s)`: `new URL(s)` returns instead of throwing. */
    isValidUrl: string -> bool,
    /** `new URL(s).origin`, for an `s` that parses. */
    origin: string -> string,
    /** `new URL(ref, base).href`, or the message of the TypeError it throws. */
    resolve: (string, string) -> Result<string, string>)
}
