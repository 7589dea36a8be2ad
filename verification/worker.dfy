/**
 * The decision logic of the worker's `fetch` handler: the decoy page, the
 * token exchange with injected Basic credentials, prefix routing to the
 * upstream registries, the `Host` override, and the rewrite of the
 * `Www-Authenticate` challenge so that clients come back through the proxy.
 *
 * The pure functions below are the specification; `Fetch` follows the
 * handler statement by statement and is proved equal to `Handle`.
 */
module Worker {
  import opened Wrappers
  import opened Text
  import opened Http
  import Base64

  const HUB_HOST: string := "registry-1.docker.io"
  const AUTH_URL: string := "https://auth.docker.io"
  const AUTH_HOST: string := "auth.docker.io"

  /** Routing prefix (the third path segment) to upstream registry host. */
  const ROUTES: map<string, string> := map[
    "quay" := "quay.io",
    "gcr" := "gcr.io",
    "k8s-gcr" := "k8s.gcr.io",
    "k8s" := "registry.k8s.io",
    "ghcr" := "ghcr.io",
    "cloudsmith" := "docker.cloudsmith.io",
    "nvcr" := "nvcr.io",
    "test" := "registry-1.docker.io"
  ]

  const HOST: string := "host"
  const AUTHORIZATION: string := "authorization"
  const WWW_AUTHENTICATE: string := "www-authenticate"
  const CONTENT_TYPE: string := "content-type"
  const CACHE_CONTROL: string := "cache-control"

  /** The page served for "/" and "/index.html": the nginx welcome document, never cached. */
  const DECOY_RESPONSE: Response := Response(
    200, "",
    map[CONTENT_TYPE := "text/html; charset=UTF-8", CACHE_CONTROL := "no-store"],
    Some(NginxWelcomePage))

  /** The worker's environment: the Docker Hub credentials, each possibly unset. */
  datatype Env = Env(username: Option<string>, password: Option<string>)

  /**
   * JavaScript truthiness of an environment binding: an unset binding
   * (undefined) and the empty string are falsy, every other string is truthy.
   */
  function Truthy(v: Option<string>): (truthy: bool)
    ensures v.None? ==> !truthy
    ensures v == Some("") ==> !truthy
    ensures v.Some? && v.value != "" ==> truthy
  {
    v.Some? && v.value != ""
  }

  /** Why the handler throws instead of returning a response. */
  datatype HandlerError =
    | InvalidCharacter   // `btoa` met a character above 255
    | NetworkFailure     // the `fetch` promise rejected

  /** What one invocation does: the request it sent upstream, if any, and what it returned or threw. */
  datatype Outcome = Outcome(sent: Option<Request>, result: Result<Response, HandlerError>)

  // ---------------------------------------------------------------------
  // Request classification
  // ---------------------------------------------------------------------

  datatype RequestClass = Decoy | TokenExchange | RegistryProxy

  /** Only the exact paths decide; "/index.htm", "/token/" or "/TOKEN" are proxied. */
  function Classify(pathname: string): (c: RequestClass)
    ensures c == Decoy <==> pathname == "/" || pathname == "/index.html"
    ensures c == TokenExchange <==> pathname == "/token"
    ensures c == RegistryProxy <==> pathname !in {"/", "/index.html", "/token"}
  {
    if pathname == "/" || pathname == "/index.html" then Decoy
    else if pathname == "/token" then TokenExchange
    else RegistryProxy
  }

  // ---------------------------------------------------------------------
  // Token exchange
  // ---------------------------------------------------------------------

  /** `Basic` credentials of section 2 of RFC 7617, decoded back to "user-id:password". */
  predicate IsBasicCredential(value: string, username: string, password: string)
  {
    && |value| >= 6 && value[..6] == "Basic "
    && Base64.Decode(value[6..]).Some?
    && Base64.Latin1String(Base64.Decode(value[6..]).value) == username + ":" + password
  }

  /** `"Basic " + btoa(user + ":" + pass)`; None when `btoa` throws. */
  function BasicCredentials(username: string, password: string): (r: Option<string>)
    ensures r.Some? <==> Base64.IsLatin1(username + ":" + password)
    ensures r.Some? ==> IsBasicCredential(r.value, username, password)
  {
    match Base64.Btoa(username + ":" + password)
    case None => None
    case Some(encoded) =>
      assert ("Basic " + encoded)[6..] == encoded;
      Some("Basic " + encoded)
  }

  /**
   * The headers forwarded to the token service: the inbound ones, plus an
   * `Authorization` header when both credentials are set and non-empty.
   */
  function TokenHeaders(headers: Headers, env: Env): (r: Result<Headers, HandlerError>)
    ensures !(Truthy(env.username) && Truthy(env.password)) ==> r == Ok(headers)
    ensures Truthy(env.username) && Truthy(env.password) ==>
      (r.Ok? <==> Base64.IsLatin1(env.username.value + ":" + env.password.value))
    ensures Truthy(env.username) && Truthy(env.password) && r.Ok? ==>
      AUTHORIZATION in r.value && IsBasicCredential(r.value[AUTHORIZATION], env.username.value, env.password.value)
    ensures r.Err? ==> r.error == InvalidCharacter
    ensures r.Ok? ==> r.value.Keys <= headers.Keys + {AUTHORIZATION}
    ensures r.Ok? ==> forall k :: k != AUTHORIZATION ==> Get(r.value, k) == Get(headers, k)
  {
    if Truthy(env.username) && Truthy(env.password) then
      match BasicCredentials(env.username.value, env.password.value)
      case None => Err(InvalidCharacter)
      case Some(credential) => Ok(Set(headers, AUTHORIZATION, credential))
    else Ok(headers)
  }

  /**
   * The request sent for "/token": the inbound URL with the hostname changed
   * to the Docker Hub token service (protocol, port, path and query kept),
   * method GET, redirects followed, no body.
   */
  function TokenRequest(request: Request, env: Env): (r: Result<Request, HandlerError>)
    ensures r.Ok? <==> TokenHeaders(request.headers, env).Ok?
    ensures r.Err? ==> r.error == InvalidCharacter
    ensures r.Ok? ==>
      && r.value.httpMethod == "GET"
      && r.value.url.hostname == AUTH_HOST
      && r.value.url.protocol == request.url.protocol
      && r.value.url.port == request.url.port
      && r.value.url.pathname == request.url.pathname
      && r.value.url.search == request.url.search
      && r.value.headers == TokenHeaders(request.headers, env).value
      && r.value.body.None?
      && r.value.redirect == Follow
  {
    match TokenHeaders(request.headers, env)
    case Err(e) => Err(e)
    case Ok(headers) => Ok(Request("GET", request.url.(hostname := AUTH_HOST), headers, None, Follow))
  }

  // ---------------------------------------------------------------------
  // Route resolution
  // ---------------------------------------------------------------------

  /** Where a registry request goes, and whether it counts as Docker Hub for the challenge rewrite. */
  datatype Route = Route(upstream: string, path: string, isDockerHub: bool)

  /** What follows segment 2 of a split path: "" or "/" and the remaining segments. */
  function Tail(parts: seq<string>): string
  {
    if |parts| <= 3 then "" else "/" + Join(parts[3..], '/')
  }

  /** `Join` of the parts from index 2 on. */
  lemma JoinFrom2(parts: seq<string>)
    requires |parts| > 2
    ensures Join(parts[2..], '/') == parts[2] + Tail(parts)
  {
    if |parts| > 3 {
      assert parts[2..][1..] == parts[3..];
    }
  }

  /** `Join` of a path's parts, and of the same parts with index 2 removed, around segment 2. */
  lemma JoinWithout2(parts: seq<string>)
    requires |parts| > 2
    ensures Join(parts, '/') == parts[0] + "/" + parts[1] + "/" + parts[2] + Tail(parts)
    ensures Join(parts[..2] + parts[3..], '/') == parts[0] + "/" + parts[1] + Tail(parts)
  {
    JoinWhole(parts);
    JoinRemoved(parts);
  }

  lemma JoinWhole(parts: seq<string>)
    requires |parts| > 2
    ensures Join(parts, '/') == parts[0] + "/" + parts[1] + "/" + parts[2] + Tail(parts)
  {
    var tail := Tail(parts);
    JoinFrom2(parts);
    var from1 := parts[1..];
    assert from1[1..] == parts[2..];
    assert Join(from1, '/') == parts[1] + "/" + (parts[2] + tail);
    assert Join(parts, '/') == parts[0] + "/" + Join(from1, '/');
    Unnest(parts[0], parts[1], parts[2], tail, "/");
  }

  /** Regrouping the nested concatenation that `Join` builds. */
  lemma Unnest(a: string, b: string, c: string, d: string, sep: string)
    ensures a + sep + (b + sep + (c + d)) == a + sep + b + sep + c + d
  {
    assert b + sep + (c + d) == b + sep + c + d;
  }

  lemma JoinRemoved(parts: seq<string>)
    requires |parts| > 2
    ensures Join(parts[..2] + parts[3..], '/') == parts[0] + "/" + parts[1] + Tail(parts)
  {
    var tail := Tail(parts);
    var removed := parts[..2] + parts[3..];
    var rest1 := removed[1..];
    assert rest1 == [parts[1]] + parts[3..];
    if |parts| == 3 {
      assert Join(rest1, '/') == parts[1] + tail;
    } else {
      assert rest1[1..] == parts[3..];
      assert Join(rest1, '/') == parts[1] + tail;
    }
    assert Join(removed, '/') == parts[0] + "/" + Join(rest1, '/');
  }

  /**
   * Segment 2 of the path split on '/' (segment 1 is expected to be "v2" but
   * is not checked) is looked up in ROUTES. A hit selects the table's host,
   * clears the Docker Hub flag and removes exactly that segment; a miss, or a
   * path of two segments or fewer, keeps Docker Hub and the path as it is.
   */
  function ResolveRoute(pathname: string): (r: Route)
    ensures var parts := Split(pathname, '/');
      r.isDockerHub <==> !(|parts| > 2 && parts[2] in ROUTES)
    ensures r.isDockerHub ==> r.upstream == HUB_HOST && r.path == pathname
    ensures !r.isDockerHub ==>
      var parts := Split(pathname, '/');
      && |parts| > 2
      && r.upstream == ROUTES[parts[2]]
      && pathname == parts[0] + "/" + parts[1] + "/" + parts[2] + Tail(parts)
      && r.path == parts[0] + "/" + parts[1] + Tail(parts)
      && Split(r.path, '/') == parts[..2] + parts[3..]
  {
    var parts := Split(pathname, '/');
    if |parts| > 2 && parts[2] in ROUTES then
      var removed := parts[..2] + parts[3..];
      JoinSplit(pathname, '/');
      JoinWithout2(parts);
      assert forall i :: 0 <= i < |removed| ==> '/' !in removed[i] by {
        forall i | 0 <= i < |removed| ensures '/' !in removed[i] {
          if i < 2 { assert removed[i] == parts[i]; } else { assert removed[i] == parts[i + 1]; }
        }
      }
      SplitJoin(removed, '/');
      Route(ROUTES[parts[2]], Join(removed, '/'), false)
    else
      Route(HUB_HOST, pathname, true)
  }

  /**
   * The request sent to a registry: the inbound one with the URL's hostname
   * and path replaced and the `Host` header forced to the upstream; method,
   * protocol, port, query, body, redirect mode and every other header kept.
   */
  function ProxyRequest(request: Request, route: Route): (out: Request)
    ensures out.url.hostname == route.upstream && Get(out.headers, HOST) == Some(route.upstream)
    ensures out.url.pathname == route.path
    ensures out.url.protocol == request.url.protocol && out.url.port == request.url.port
    ensures out.url.search == request.url.search
    ensures out.httpMethod == request.httpMethod && out.body == request.body && out.redirect == request.redirect
    ensures out.headers.Keys == request.headers.Keys + {HOST}
    ensures forall k :: k != HOST ==> Get(out.headers, k) == Get(request.headers, k)
  {
    Request(request.httpMethod,
            request.url.(hostname := route.upstream, pathname := route.path),
            Set(request.headers, HOST, route.upstream),
            request.body,
            request.redirect)
  }

  // ---------------------------------------------------------------------
  // Challenge rewriting
  // ---------------------------------------------------------------------

  /** `url.protocol + '//' + request.headers.get('Host')`; a missing header concatenates as "null". */
  function WorkerOrigin(protocol: string, host: Option<string>): (origin: string)
    ensures host.Some? ==> origin == protocol + "//" + host.value
    ensures host.None? ==> origin == protocol + "//null"
  {
    protocol + "//" + (match host case Some(h) => h case None => "null")
  }

  /** The challenge is rewritten only for Docker Hub and only when the header is present and non-empty. */
  predicate RewritesChallenge(headers: Headers, isDockerHub: bool)
  {
    isDockerHub && WWW_AUTHENTICATE in headers && headers[WWW_AUTHENTICATE] != ""
  }

  /**
   * The upstream response's headers as returned to the client: for Docker Hub,
   * the first "https://auth.docker.io" in `Www-Authenticate` becomes the
   * worker's own origin; nothing else changes.
   */
  function RewriteChallenge(headers: Headers, isDockerHub: bool, origin: string): (r: Headers)
    ensures r.Keys == headers.Keys
    ensures forall k :: k != WWW_AUTHENTICATE ==> Get(r, k) == Get(headers, k)
    ensures !RewritesChallenge(headers, isDockerHub) ==> r == headers
    ensures RewritesChallenge(headers, isDockerHub) && !Contains(headers[WWW_AUTHENTICATE], AUTH_URL) ==> r == headers
    ensures RewritesChallenge(headers, isDockerHub) && '$' !in origin ==>
      var challenge := headers[WWW_AUTHENTICATE];
      match IndexOf(challenge, AUTH_URL)
      case None => r == headers
      case Some(i) => r[WWW_AUTHENTICATE] == challenge[..i] + origin + challenge[i + |AUTH_URL|..]
  {
    var challenge := Get(headers, WWW_AUTHENTICATE);
    if isDockerHub && challenge.Some? && challenge.value != "" then
      var rewritten := ReplaceFirst(challenge.value, AUTH_URL, origin);
      assert headers[WWW_AUTHENTICATE := challenge.value] == headers;
      Set(headers, WWW_AUTHENTICATE, rewritten)
    else headers
  }

  /** `new Response(response.body, {status, headers})`: status and body kept, statusText reset. */
  function Relay(response: Response, isDockerHub: bool, origin: string): (r: Response)
    ensures r.status == response.status && r.body == response.body && r.statusText == ""
    ensures r.headers == RewriteChallenge(response.headers, isDockerHub, origin)
  {
    Response(response.status, "", RewriteChallenge(response.headers, isDockerHub, origin), response.body)
  }

  // ---------------------------------------------------------------------
  // The handler
  // ---------------------------------------------------------------------

  /** One invocation of the handler, `fetch` being the network. */
  function Handle(request: Request, env: Env, fetch: Transport): (o: Outcome)
    ensures Classify(request.url.pathname) == Decoy ==> o == Outcome(None, Ok(DECOY_RESPONSE))
    ensures Classify(request.url.pathname) == TokenExchange ==>
      match TokenRequest(request, env)
      case Err(e) => o == Outcome(None, Err(e))
      case Ok(out) =>
        && o.sent == Some(out)
        && (o.result.Ok? <==> fetch(out).Delivered?)
        && (fetch(out).Delivered? ==> o.result == Ok(fetch(out).response))
    ensures Classify(request.url.pathname) == RegistryProxy ==>
      var route := ResolveRoute(request.url.pathname);
      && o.sent == Some(ProxyRequest(request, route))
      && (o.result.Ok? <==> fetch(o.sent.value).Delivered?)
      && (o.result.Ok? ==>
            o.result.value == Relay(fetch(o.sent.value).response, route.isDockerHub,
                                    WorkerOrigin(request.url.protocol, Get(request.headers, HOST))))
    ensures o.result.Err? && o.sent.Some? ==> o.result.error == NetworkFailure
  {
    match Classify(request.url.pathname)
    case Decoy => Outcome(None, Ok(DECOY_RESPONSE))
    case TokenExchange =>
      (match TokenRequest(request, env)
       case Err(e) => Outcome(None, Err(e))
       case Ok(out) =>
         match fetch(out)
         case TransportFailure => Outcome(Some(out), Err(NetworkFailure))
         case Delivered(response) => Outcome(Some(out), Ok(response)))
    case RegistryProxy =>
      var route := ResolveRoute(request.url.pathname);
      var out := ProxyRequest(request, route);
      match fetch(out)
      case TransportFailure => Outcome(Some(out), Err(NetworkFailure))
      case Delivered(response) =>
        Outcome(Some(out), Ok(Relay(response, route.isDockerHub,
                                    WorkerOrigin(request.url.protocol, Get(request.headers, HOST)))))
  }

  /**
   * The handler as the worker runs it: locals reassigned, the path's parts
   * spliced, the URL's hostname and pathname assigned, headers copied and set.
   */
  method Fetch(request: Request, env: Env, fetch: Transport) returns (outcome: Outcome)
    ensures outcome == Handle(request, env, fetch)
  {
    var url := request.url;
    if url.pathname == "/" || url.pathname == "/index.html" {
      return Outcome(None, Ok(DECOY_RESPONSE));
    }

    if url.pathname == "/token" {
      var tokenUrl := url.(hostname := AUTH_HOST);
      var newHeaders := request.headers;
      if Truthy(env.username) && Truthy(env.password) {
        var authString := Base64.Btoa(env.username.value + ":" + env.password.value);
        if authString.None? {
          return Outcome(None, Err(InvalidCharacter));
        }
        newHeaders := Set(newHeaders, AUTHORIZATION, "Basic " + authString.value);
      }
      var tokenRequest := Request("GET", tokenUrl, newHeaders, None, Follow);
      var delivery := fetch(tokenRequest);
      if delivery.TransportFailure? {
        return Outcome(Some(tokenRequest), Err(NetworkFailure));
      }
      return Outcome(Some(tokenRequest), Ok(delivery.response));
    }

    var pathParts := Split(url.pathname, '/');
    var upstream := HUB_HOST;
    var isDockerHub := true;
    var newPath := url.pathname;
    if |pathParts| > 2 {
      var prefix := pathParts[2];
      if prefix in ROUTES {
        upstream := ROUTES[prefix];
        isDockerHub := false;
        pathParts := pathParts[..2] + pathParts[3..];
        newPath := Join(pathParts, '/');
      }
    }

    ghost var route := ResolveRoute(request.url.pathname);
    assert Route(upstream, newPath, isDockerHub) == route;
    url := url.(hostname := upstream);
    url := url.(pathname := newPath);
    var newRequest := Request(request.httpMethod, url, Set(request.headers, HOST, upstream), request.body, request.redirect);
    assert newRequest == ProxyRequest(request, route);

    var delivery := fetch(newRequest);
    if delivery.TransportFailure? {
      return Outcome(Some(newRequest), Err(NetworkFailure));
    }
    var response := delivery.response;

    var newHeaders := response.headers;
    var wwwAuth := Get(newHeaders, WWW_AUTHENTICATE);
    if isDockerHub && wwwAuth.Some? && wwwAuth.value != "" {
      var workerHost := WorkerOrigin(url.protocol, Get(request.headers, HOST));
      newHeaders := Set(newHeaders, WWW_AUTHENTICATE, ReplaceFirst(wwwAuth.value, AUTH_URL, workerHost));
    }
    return Outcome(Some(newRequest), Ok(Response(response.status, "", newHeaders, response.body)));
  }
}
