/** The parts of a Symfony HTTP request the controllers read. */
module HttpRequest {
  import opened PhpValues

  /** The three parameter bags of a request: route attributes, query string and POST body. */
  datatype Request = Request(attributes: map<string, Value>, query: map<string, Value>, body: map<string, Value>)

  /** `Request::get($key, $default)`: the route attributes are consulted first, then the
      query string, then the POST body; only when no bag holds the key is the default returned. */
  function Get(req: Request, key: string, default: Value): Value {
    if key in req.attributes then req.attributes[key]
    else if key in req.query then req.query[key]
    else if key in req.body then req.body[key]
    else default
  }
}
