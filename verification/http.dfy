/**
 * The parts of the Fetch API the worker touches, as values: a header map,
 * the URL fields it reads or assigns, requests and responses. Bodies are
 * opaque streams that are passed along and never read.
 */
module Http {
  import opened Wrappers

  /**
   * A `Headers` object. Names are kept in the lower-case form the Headers API
   * normalises them to; every name used by the worker is written that way.
   */
  type Headers = map<string, string>

  /** `headers.get(name)`: None stands for JavaScript's null. */
  function Get(headers: Headers, name: string): (value: Option<string>)
    ensures value.None? <==> name !in headers
    ensures value.Some? ==> name in headers && value.value == headers[name]
  {
    if name in headers then Some(headers[name]) else None
  }

  /** `headers.set(name, value)`: the one entry is replaced or added, every other entry stays. */
  function Set(headers: Headers, name: string, value: string): (r: Headers)
    ensures r.Keys == headers.Keys + {name}
    ensures Get(r, name) == Some(value)
    ensures forall k :: k != name ==> Get(r, k) == Get(headers, k)
  {
    headers[name := value]
  }

  /** The URL fields the worker reads or assigns; `protocol` keeps its colon ("https:"). */
  datatype Url = Url(protocol: string, hostname: string, port: string, pathname: string, search: string)

  datatype RedirectMode = Follow | Manual | Error

  /** A body stream, passed through unread; the decoy page is a constant document. */
  datatype Body = NginxWelcomePage | Stream(id: nat)

  datatype Request = Request(httpMethod: string, url: Url, headers: Headers, body: Option<Body>, redirect: RedirectMode)

  datatype Response = Response(status: int, statusText: string, headers: Headers, body: Option<Body>)

  /** What a `fetch` call settles to: a response, or a rejected promise. */
  datatype Delivery = Delivered(response: Response) | TransportFailure

  /** The network: `fetch` as a parameter, so that every call the worker makes is visible in the model. */
  type Transport = Request -> Delivery
}
