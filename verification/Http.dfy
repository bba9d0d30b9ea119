/** The parts of HTTP the handlers look at, with library parsing as unknown functions. */
module Http {
  import opened Wrappers
  import opened Text
  import opened Cavage

  datatype StatusCode =
    Accepted | BadRequest | Unauthorized | NotFound | UnsupportedMediaType | InternalServerError | BadGateway

  // A header map: lowercase names with their values in arrival order.
  type Headers = seq<Field>

  function GetAll(headers: Headers, name: string): seq<string> {
    if headers == [] then []
    else (if headers[0].0 == name then [headers[0].1] else []) + GetAll(headers[1..], name)
  }

  // The first value, when it is visible ASCII.
  function GetText(headers: Headers, name: string): Option<string> {
    var values := GetAll(headers, name);
    if values != [] && AllVisible(values[0]) then Some(values[0]) else None
  }

  datatype Authority = Authority(text: string, host: string, port: Option<nat>)

  datatype Uri = Uri(scheme: Option<string>, authority: Option<Authority>)

  datatype Request = Request(headers: Headers, verb: string, path: string, pathAndQuery: Option<string>, body: Bytes)

  function RequestTarget(request: Request): string {
    match request.pathAndQuery
    case Some(text) => text
    case None => request.path
  }

  // A recipient URL as the `url` crate parses it: a port that is the scheme's default is dropped.
  datatype Url = Url(
    scheme: string, username: string, password: Option<string>, host: Option<string>, port: Option<nat>,
    path: string, query: Option<string>)

  /** Cryptography and the library parsers and printers. Times are in nanoseconds. */
  datatype Platform = Platform(
    crypto: Crypto,
    isIri: string -> bool,
    authority: string -> Option<Authority>,
    uri: string -> Option<Uri>,
    parseDate: string -> Option<int>,
    printDate: int -> string)

  function DefaultPort(scheme: Option<string>): Option<nat> {
    if scheme.Some? && EqualIgnoringCase(scheme.value, "http") then Some(80)
    else if scheme.Some? && EqualIgnoringCase(scheme.value, "https") then Some(443)
    else None
  }

  function Decimal(n: nat): string {
    if n < 10 then [(n + '0' as int) as char] else Decimal(n / 10) + [(n % 10 + '0' as int) as char]
  }
}
