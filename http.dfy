/**
 * What the handlers read of an HTTP request: its method and its headers.
 * Header names are case-insensitive, so the map is keyed by lower-case names.
 */
module Http {
  import opened Wrappers
  import Text

  datatype Method = Get | Post | Options | OtherMethod(name: string)

  datatype Request = Request(verb: Method, headers: map<string, string>)

  /** `headers().get(name)`: the value, if the header was sent. */
  function TryHeader(req: Request, name: string): (r: Option<string>)
    ensures r.Some? <==> Text.AsciiLower(name) in req.headers
  {
    var key := Text.AsciiLower(name);
    if key in req.headers then Some(req.headers[key]) else None
  }

  /** `headers().get(name).and_then(to_str).unwrap_or_default()`: the value, or empty when absent. */
  function Header(req: Request, name: string): string {
    TryHeader(req, name).GetOr("")
  }
}
