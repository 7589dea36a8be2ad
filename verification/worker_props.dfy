/**
 * Properties of the worker that relate several of its functions: where a
 * routing prefix may stand, the behaviour on the example paths of the
 * registry API, recovery of the Basic credentials, and what the challenge
 * rewrite does to a Docker Hub response end to end.
 */
module WorkerProperties {
  import opened Wrappers
  import opened Text
  import opened Http
  import Base64
  import opened Worker

  // ---------------------------------------------------------------------
  // Route resolution at the level of strings
  // ---------------------------------------------------------------------

  /** The first two separator-free segments come off the front of a split. */
  lemma SplitTwo(seg0: string, seg1: string, t: string)
    requires '/' !in seg0 && '/' !in seg1
    ensures Split(seg0 + "/" + seg1 + "/" + t, '/') == [seg0, seg1] + Split(t, '/')
  {
    var b := seg1 + "/" + t;
    assert seg0 + "/" + seg1 + "/" + t == seg0 + "/" + b;
    SplitConcat(seg0, b, '/');
    SplitConcat(seg1, t, '/');
  }

  /** A separator-free segment followed by nothing or by "/..." is one piece, and the rest is its `Tail`. */
  lemma SplitSegment(prefix: string, rest: string)
    requires '/' !in prefix
    requires rest == "" || rest[0] == '/'
    ensures var parts := Split(prefix + rest, '/');
      && parts[0] == prefix
      && (rest == "" ==> |parts| == 1)
      && (rest != "" ==> |parts| > 1 && "/" + Join(parts[1..], '/') == rest)
  {
    if rest == "" {
      assert prefix + rest == prefix;
      SplitNoSeparator(prefix, '/');
    } else {
      assert prefix + rest == prefix + "/" + rest[1..];
      SplitConcat(prefix, rest[1..], '/');
      JoinSplit(rest[1..], '/');
      assert rest == "/" + rest[1..];
    }
  }

  lemma SplitThree(seg0: string, seg1: string, prefix: string, rest: string)
    requires '/' !in seg0 && '/' !in seg1 && '/' !in prefix
    requires rest == "" || rest[0] == '/'
    ensures var parts := Split(seg0 + "/" + seg1 + "/" + prefix + rest, '/');
      |parts| > 2 && parts[0] == seg0 && parts[1] == seg1 && parts[2] == prefix && Tail(parts) == rest
  {
    var t := prefix + rest;
    assert seg0 + "/" + seg1 + "/" + prefix + rest == seg0 + "/" + seg1 + "/" + t;
    SplitTwo(seg0, seg1, t);
    SplitSegment(prefix, rest);
    var parts := [seg0, seg1] + Split(t, '/');
    assert parts[3..] == Split(t, '/')[1..];
  }

  /**
   * Only the segment after the first two decides: for a path
   * `seg0/seg1/prefix` followed by nothing or by "/...", a key of ROUTES
   * there is removed and selects its host, anything else leaves Docker Hub
   * and the path as they are, whatever `seg0`, `seg1` and the rest hold.
   */
  lemma PrefixPosition(seg0: string, seg1: string, prefix: string, rest: string)
    requires '/' !in seg0 && '/' !in seg1 && '/' !in prefix
    requires rest == "" || rest[0] == '/'
    ensures var r := ResolveRoute(seg0 + "/" + seg1 + "/" + prefix + rest);
      if prefix in ROUTES then r == Route(ROUTES[prefix], seg0 + "/" + seg1 + rest, false)
      else r == Route(HUB_HOST, seg0 + "/" + seg1 + "/" + prefix + rest, true)
  {
    SplitThree(seg0, seg1, prefix, rest);
  }

  /** A path of two segments or fewer ("/v2", "v2/x", "") always goes to Docker Hub unchanged. */
  lemma ShortPathMisses(pathname: string)
    requires |Split(pathname, '/')| <= 2
    ensures ResolveRoute(pathname) == Route(HUB_HOST, pathname, true)
  {
  }

  /** `PrefixPosition` for the registry API's "/v2/<prefix>..." paths. */
  lemma VersionPrefixPosition(prefix: string, rest: string)
    requires '/' !in prefix
    requires rest == "" || rest[0] == '/'
    ensures var r := ResolveRoute("/v2/" + prefix + rest);
      if prefix in ROUTES then r == Route(ROUTES[prefix], "/v2" + rest, false)
      else r == Route(HUB_HOST, "/v2/" + prefix + rest, true)
  {
    assert "" + "/" + "v2" + "/" == "/v2/";
    assert "" + "/" + "v2" == "/v2";
    assert "" + "/" + "v2" + "/" + prefix + rest == "/v2/" + prefix + rest;
    PrefixPosition("", "v2", prefix, rest);
  }

  // The registry API examples, each path written as "/v2/", its third segment and the rest.

  /** "gcr" goes to gcr.io and is cut out of the path. */
  lemma GcrExample()
    ensures ResolveRoute("/v2/" + "gcr" + "/library/nginx/manifests/latest")
         == Route("gcr.io", "/v2" + "/library/nginx/manifests/latest", false)
  {
    VersionPrefixPosition("gcr", "/library/nginx/manifests/latest");
  }

  /** "library" is not a key: Docker Hub, path unchanged. */
  lemma LibraryExample()
    ensures ResolveRoute("/v2/" + "library" + "/nginx/manifests/latest")
         == Route(HUB_HOST, "/v2/" + "library" + "/nginx/manifests/latest", true)
  {
    VersionPrefixPosition("library", "/nginx/manifests/latest");
  }

  /** The empty third segment of "/v2/" is not a key. */
  lemma TrailingSlashExample()
    ensures ResolveRoute("/v2/" + "" + "") == Route(HUB_HOST, "/v2/" + "" + "", true)
  {
    VersionPrefixPosition("", "");
  }

  /** "gcr" deeper in the path is not a prefix. */
  lemma DeepKeyExample()
    ensures ResolveRoute("/v2/" + "library" + "/gcr/image")
         == Route(HUB_HOST, "/v2/" + "library" + "/gcr/image", true)
  {
    VersionPrefixPosition("library", "/gcr/image");
  }

  /** "/v2" has only two segments, so it is never rerouted. */
  lemma BareVersionPathMisses()
    ensures ResolveRoute("/v2") == Route(HUB_HOST, "/v2", true)
  {
    SplitConcat("", "v2", '/');
    SplitNoSeparator("v2", '/');
    assert "" + "/" + "v2" == "/v2";
  }

  /**
   * The "test" prefix leads back to Docker Hub's registry host but clears
   * the Docker Hub flag, so its challenges are passed through unrewritten.
   */
  lemma TestPrefixIsNotDockerHub(seg0: string, seg1: string, rest: string, headers: Headers, origin: string)
    requires '/' !in seg0 && '/' !in seg1
    requires rest == "" || rest[0] == '/'
    ensures var r := ResolveRoute(seg0 + "/" + seg1 + "/test" + rest);
      && r.upstream == HUB_HOST
      && !r.isDockerHub
      && RewriteChallenge(headers, r.isDockerHub, origin) == headers
  {
    PrefixPosition(seg0, seg1, "test", rest);
    assert seg0 + "/" + seg1 + "/" + "test" + rest == seg0 + "/" + seg1 + "/test" + rest;
  }

  // ---------------------------------------------------------------------
  // Request classification and the token exchange
  // ---------------------------------------------------------------------

  /** "/" and "/index.html" get the decoy page, with no upstream call, whatever else the request holds. */
  lemma DecoyPage(request: Request, env: Env, fetch: Transport)
    requires request.url.pathname == "/" || request.url.pathname == "/index.html"
    ensures var o := Handle(request, env, fetch);
      && o.sent.None?
      && o.result.Ok?
      && o.result.value.status == 200
      && Get(o.result.value.headers, CONTENT_TYPE) == Some("text/html; charset=UTF-8")
      && o.result.value.body == Some(NginxWelcomePage)
  {
  }

  /**
   * No request goes upstream exactly for the decoy paths and for a token
   * request whose credentials `btoa` rejects; every other invocation makes
   * one call.
   */
  lemma UpstreamCallIff(request: Request, env: Env, fetch: Transport)
    ensures Handle(request, env, fetch).sent.None? <==>
      || Classify(request.url.pathname) == Decoy
      || (&& request.url.pathname == "/token"
          && Truthy(env.username) && Truthy(env.password)
          && !Base64.IsLatin1(env.username.value + ":" + env.password.value))
  {
  }

  /** "/token" goes to the token service with GET and never through the routing table. */
  lemma TokenExchangeTarget(request: Request, env: Env, fetch: Transport)
    requires request.url.pathname == "/token"
    requires TokenRequest(request, env).Ok?
    ensures var o := Handle(request, env, fetch);
      && o.sent.Some?
      && o.sent.value.url.hostname == AUTH_HOST
      && o.sent.value.url.pathname == "/token"
      && o.sent.value.url.search == request.url.search
      && o.sent.value.httpMethod == "GET"
      && o.sent.value.url.hostname !in ROUTES.Values
  {
  }

  /** How a server reads `user-id ":" password` (section 2 of RFC 7617): split at the first colon. */
  function UserPass(decoded: string): Option<(string, string)>
  {
    match IndexOf(decoded, ":")
    case None => None
    case Some(i) => Some((decoded[..i], decoded[i + 1..]))
  }

  /**
   * The injected header carries the configured credentials: decoding it and
   * splitting at the first colon gives the user name and password back, as
   * long as the user name has no colon (RFC 7617 forbids one there).
   */
  lemma CredentialRecovery(username: string, password: string)
    requires username != "" && password != ""
    requires ':' !in username
    requires Base64.IsLatin1(username + ":" + password)
    ensures var headers := TokenHeaders(map[], Env(Some(username), Some(password)));
      && headers.Ok?
      && AUTHORIZATION in headers.value
      && var value := headers.value[AUTHORIZATION];
      && |value| >= 6 && value[..6] == "Basic "
      && Base64.Decode(value[6..]).Some?
      && UserPass(Base64.Latin1String(Base64.Decode(value[6..]).value)) == Some((username, password))
  {
    var decoded := username + ":" + password;
    FirstOccurrence(username, ":", password);
    assert decoded[..|username|] == username;
    assert decoded[|username| + 1..] == password;
  }

  /**
   * The credential header is determined by the user name and password: two
   * values that both strictly decode to `user:password` are the same text,
   * so `BasicCredentials` yields exactly `"Basic " + btoa(user + ":" + password)`.
   */
  lemma BasicCredentialUnique(value: string, other: string, username: string, password: string)
    requires IsBasicCredential(value, username, password) && IsBasicCredential(other, username, password)
    ensures value == other
  {
    Base64.Latin1StringInjective(Base64.Decode(value[6..]).value, Base64.Decode(other[6..]).value);
    Base64.CanonicalText(value[6..], other[6..]);
    assert value == value[..6] + value[6..];
    assert other == other[..6] + other[6..];
  }

  /** With a colon in the user name the header is ambiguous: two configurations send the same bytes. */
  lemma ColonInUserNameIsAmbiguous()
    ensures TokenHeaders(map[], Env(Some("a:b"), Some("c"))) == TokenHeaders(map[], Env(Some("a"), Some("b:c")))
  {
    assert "a:b" + ":" + "c" == "a" + ":" + "b:c";
  }

  // ---------------------------------------------------------------------
  // The challenge rewrite
  // ---------------------------------------------------------------------

  /** The challenge `pre + "https://auth.docker.io" + suf` names the token service nowhere before `pre` ends. */
  predicate FirstNamedAfter(pre: string, suf: string)
  {
    forall j: nat :: j < |pre| ==> !OccursAt(pre + AUTH_URL + suf, AUTH_URL, j)
  }

  /**
   * A Docker Hub response whose challenge is `pre + "https://auth.docker.io" + suf`
   * (and names it nowhere earlier, so that is the first occurrence) reaches the client
   * with the worker's origin in its place; status, body and every other header
   * are those of the upstream response.
   */
  lemma DockerHubChallengeRewritten(request: Request, env: Env, fetch: Transport, pre: string, suf: string, host: string)
    requires Classify(request.url.pathname) == RegistryProxy
    requires ResolveRoute(request.url.pathname).isDockerHub
    requires Get(request.headers, HOST) == Some(host)
    requires '$' !in request.url.protocol && '$' !in host
    requires FirstNamedAfter(pre, suf)
    requires var sent := ProxyRequest(request, ResolveRoute(request.url.pathname));
      && fetch(sent).Delivered?
      && Get(fetch(sent).response.headers, WWW_AUTHENTICATE) == Some(pre + AUTH_URL + suf)
    ensures var o := Handle(request, env, fetch);
      var upstream := fetch(o.sent.value).response;
      && o.result.Ok?
      && Get(o.result.value.headers, WWW_AUTHENTICATE) == Some(pre + request.url.protocol + "//" + host + suf)
      && o.result.value.status == upstream.status
      && o.result.value.body == upstream.body
      && forall k :: k != WWW_AUTHENTICATE ==> Get(o.result.value.headers, k) == Get(upstream.headers, k)
  {
    var sent := ProxyRequest(request, ResolveRoute(request.url.pathname));
    ProxyOutcome(request, env, fetch);
    RelayedChallenge(fetch(sent).response, pre, suf, request.url.protocol, host);
  }

  /** The relayed Docker Hub response, for a challenge naming the token service first right after `pre`. */
  lemma RelayedChallenge(upstream: Response, pre: string, suf: string, protocol: string, host: string)
    requires Get(upstream.headers, WWW_AUTHENTICATE) == Some(pre + AUTH_URL + suf)
    requires '$' !in protocol && '$' !in host && FirstNamedAfter(pre, suf)
    ensures var relayed := Relay(upstream, true, WorkerOrigin(protocol, Some(host)));
      && Get(relayed.headers, WWW_AUTHENTICATE) == Some(pre + protocol + "//" + host + suf)
      && relayed.status == upstream.status
      && relayed.body == upstream.body
      && forall k :: k != WWW_AUTHENTICATE ==> Get(relayed.headers, k) == Get(upstream.headers, k)
  {
    var origin := WorkerOrigin(protocol, Some(host));
    assert origin == protocol + "//" + host;
    assert '$' !in origin;
    RewriteAt(upstream.headers, pre, suf, origin);
    var challenge := pre + origin + suf;
    Regroup(pre, protocol, "//", host, suf);
    var relayed := Relay(upstream, true, origin);
    assert relayed.headers == upstream.headers[WWW_AUTHENTICATE := challenge];
    forall k | k != WWW_AUTHENTICATE
      ensures Get(relayed.headers, k) == Get(upstream.headers, k)
    {
    }
  }

  /** Regrouping a concatenation of five strings. */
  lemma Regroup(a: string, b: string, c: string, d: string, e: string)
    ensures a + (b + c + d) + e == a + b + c + d + e
  {
    assert forall i | 0 <= i < |a + b + c + d + e| :: (a + (b + c + d) + e)[i] == (a + b + c + d + e)[i];
  }

  /** A delivered registry request returns the relayed upstream response. */
  lemma ProxyOutcome(request: Request, env: Env, fetch: Transport)
    requires Classify(request.url.pathname) == RegistryProxy
    requires fetch(ProxyRequest(request, ResolveRoute(request.url.pathname))).Delivered?
    ensures var route := ResolveRoute(request.url.pathname);
      var sent := ProxyRequest(request, route);
      Handle(request, env, fetch) == Outcome(Some(sent), Ok(Relay(fetch(sent).response, route.isDockerHub,
                                                WorkerOrigin(request.url.protocol, Get(request.headers, HOST)))))
  {
  }

  /** The rewrite on a header map whose challenge names the token service first right after `pre`. */
  lemma RewriteAt(headers: Headers, pre: string, suf: string, origin: string)
    requires Get(headers, WWW_AUTHENTICATE) == Some(pre + AUTH_URL + suf)
    requires FirstNamedAfter(pre, suf) && '$' !in origin
    ensures RewriteChallenge(headers, true, origin) == headers[WWW_AUTHENTICATE := pre + origin + suf]
  {
    var challenge := pre + AUTH_URL + suf;
    FirstOccurrenceAt(pre, AUTH_URL, suf);
    assert challenge[..|pre|] == pre;
    assert challenge[|pre| + |AUTH_URL|..] == suf;
    var r := RewriteChallenge(headers, true, origin);
    assert r[WWW_AUTHENTICATE] == pre + origin + suf;
    assert forall k :: k in r <==> k in headers[WWW_AUTHENTICATE := pre + origin + suf];
  }

  /**
   * Rewriting again changes nothing once the rewritten challenge holds no
   * "https://auth.docker.io" (in particular when the upstream named it once
   * and the worker's origin does not contain it).
   */
  lemma RewriteSettles(headers: Headers, isDockerHub: bool, origin: string)
    requires var once := RewriteChallenge(headers, isDockerHub, origin);
      WWW_AUTHENTICATE in once ==> !Contains(once[WWW_AUTHENTICATE], AUTH_URL)
    ensures var once := RewriteChallenge(headers, isDockerHub, origin);
      RewriteChallenge(once, isDockerHub, origin) == once
  {
  }

  /**
   * Only the first occurrence is replaced, so a challenge that names the
   * token service twice is changed again by a second pass (for any origin
   * without '$' whose length differs from that of "https://auth.docker.io").
   */
  lemma RewriteNotIdempotent(headers: Headers, origin: string)
    requires Get(headers, WWW_AUTHENTICATE) == Some(AUTH_URL + "," + AUTH_URL)
    requires '$' !in origin && |origin| != |AUTH_URL|
    ensures var once := RewriteChallenge(headers, true, origin);
      && once == headers[WWW_AUTHENTICATE := origin + "," + AUTH_URL]
      && RewriteChallenge(once, true, origin) != once
  {
    TwiceRewrittenOnce(headers, origin);
    var once := headers[WWW_AUTHENTICATE := origin + "," + AUTH_URL];
    NamedAfter(origin, ",");
    RewriteChangesLength(once, origin);
  }

  /** The first pass over a challenge naming the token service twice replaces the first name only. */
  lemma TwiceRewrittenOnce(headers: Headers, origin: string)
    requires Get(headers, WWW_AUTHENTICATE) == Some(AUTH_URL + "," + AUTH_URL)
    requires '$' !in origin
    ensures RewriteChallenge(headers, true, origin) == headers[WWW_AUTHENTICATE := origin + "," + AUTH_URL]
  {
    assert "" + AUTH_URL + ("," + AUTH_URL) == AUTH_URL + "," + AUTH_URL;
    RewriteAt(headers, "", "," + AUTH_URL, origin);
    assert "" + origin + ("," + AUTH_URL) == origin + "," + AUTH_URL;
  }

  /** Text ending in the token service's URL names it. */
  lemma NamedAfter(origin: string, sep: string)
    ensures Contains(origin + sep + AUTH_URL, AUTH_URL)
  {
    var v := origin + sep + AUTH_URL;
    assert OccursAt(v, AUTH_URL, |origin| + |sep|) by {
      assert v[|origin| + |sep|..|origin| + |sep| + |AUTH_URL|] == AUTH_URL;
    }
  }

  /** A rewrite that finds the token service changes the challenge's length unless the origin is as long as it. */
  lemma RewriteChangesLength(headers: Headers, origin: string)
    requires WWW_AUTHENTICATE in headers && Contains(headers[WWW_AUTHENTICATE], AUTH_URL)
    requires '$' !in origin && |origin| != |AUTH_URL|
    ensures |RewriteChallenge(headers, true, origin)[WWW_AUTHENTICATE]| != |headers[WWW_AUTHENTICATE]|
  {
    var v := headers[WWW_AUTHENTICATE];
    var i := IndexOf(v, AUTH_URL).value;
    assert RewriteChallenge(headers, true, origin)[WWW_AUTHENTICATE] == v[..i] + origin + v[i + |AUTH_URL|..];
  }
}
