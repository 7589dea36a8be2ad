# Registry proxy worker — a verified model of its decision logic

This project models the `fetch` handler of a Cloudflare Worker that fronts
container registries (the Docker Registry v2 API). Once the network calls are
taken out, what remains is a deterministic engine over strings. The model
covers all of it:

- **Classification.** `/` and `/index.html` get an nginx welcome page
  (status 200, `text/html; charset=UTF-8`, `no-store`). `/token` goes to the
  token exchange. Every other path goes to the registry proxy.
- **Token exchange.** The request goes to `auth.docker.io` with method GET,
  following redirects. When both `USERNAME` and `PASSWORD` are set and
  non-empty, an `Authorization: Basic base64(user ":" password)` header is
  added (section 2 of RFC 7617).
- **Route resolution.** The path is split on `/`. Segment 2 is looked up in
  the `ROUTES` table of eight prefixes. A hit selects that registry, clears
  the Docker Hub flag and removes exactly that segment. A miss keeps
  `registry-1.docker.io` and the path.
- **Request shaping.** The URL's hostname and the `Host` header are both set
  to the upstream. Everything else is forwarded as it came.
- **Challenge rewrite.** For Docker Hub responses only, the first
  `https://auth.docker.io` in a non-empty `Www-Authenticate` header is
  replaced by the worker's own origin, `protocol + "//" + Host`. Clients then
  fetch their tokens through the worker.

Layout:

- `wrappers.dfy` (`Wrappers`): `Option` and `Result`.
- `text.dfy` (`Text`): the JavaScript string operations the handler uses.
  These are `split`/`join` on one character, `indexOf`, and `replace` with a
  string pattern. That `replace` changes only the first occurrence and
  expands `$$`, `$&`, `` $` `` and `$'` in the replacement (GetSubstitution,
  section 22.1.3.19.1 of ECMA-262).
- `base64.dfy` (`Base64`): the `btoa` built-in. It encodes Latin-1 text with
  the alphabet and padding of section 4 of RFC 4648, and fails on any
  character above 255. A strict decoder (section 3.5 of RFC 4648: no
  characters outside the alphabet, padding only at the end, zero pad bits)
  is included so that the round trip can be stated in both directions. The
  two directions together make the base64 text of a byte sequence unique.
- `http.dfy` (`Http`): headers (a map with `Get`/`Set`), URL fields, requests,
  responses, and the network as a function parameter (`Transport`).
- `worker.dfy` (`Worker`): the constants, the specification functions, and
  `Fetch`. `Fetch` follows the handler statement by statement: locals are
  reassigned, `pathParts` is spliced, and the URL fields are assigned.
  It is proved equal to the specification function `Handle`.
- `worker_props.dfy` (`WorkerProperties`): properties that relate several
  functions.

The network is a parameter `fetch: Request -> Delivery`. An `Outcome`
records the request that was sent, if any, and the response returned or the
error thrown. "No upstream call" therefore means `sent == None`.

### Behaviour worth knowing

- `String.prototype.replace` with a string pattern replaces only the first
  occurrence. A second rewrite is therefore a no-op only when the rewritten
  header no longer names the token service (`RewriteSettles`). A header
  naming it twice is changed again by a second pass (`RewriteNotIdempotent`).
- When the inbound request has no `Host` header, the origin becomes
  `protocol + "//null"`, following JavaScript string concatenation
  (`WorkerOrigin`).
- The relayed response keeps the upstream status but not its status text,
  because `new Response(body, {status, headers})` resets it.

## Model

| member | source | states |
|---|---|---|
| `Worker.Classify` | _worker.js:60-74 | a path is the decoy iff it is exactly `/` or `/index.html`, the token exchange iff it is exactly `/token`, and proxied otherwise |
| `Worker.Truthy` | _worker.js:81 | an unset binding and the empty string are falsy, every other string is truthy, as `env.USERNAME && env.PASSWORD` reads them |
| `Worker.BasicCredentials` | _worker.js:82-83 | the value exists iff `user:password` is all Latin-1; when it does, it is `Basic ` followed by text that strictly decodes (section 3.5 of RFC 4648) to `user:password`, which with `BasicCredentialUnique` fixes it as `"Basic " + btoa(user + ":" + password)` |
| `Worker.TokenHeaders` | _worker.js:78-84 | inbound headers are forwarded unchanged unless both credentials are truthy; then `Authorization` carries the one Basic value that strictly decodes to `user:password`, or the call fails on a non-Latin-1 character; no other header changes |
| `Worker.TokenRequest` | _worker.js:75-90 | the token request goes to `auth.docker.io` with GET, redirect follow and no body; protocol, port, path and query are the inbound ones |
| `Worker.ResolveRoute` | _worker.js:98-115 | Docker Hub iff the split path lacks a segment 2 that is a ROUTES key; then upstream is `registry-1.docker.io` and the path is unchanged; otherwise upstream is `ROUTES[part2]`, the path is the old one with exactly segment 2 cut out, and it splits into the old parts without index 2 |
| `Worker.ProxyRequest` | _worker.js:117-122 | the URL hostname and the `Host` header both equal the upstream; the path is the resolved one; method, protocol, port, query, body, redirect mode and every other header are kept |
| `Worker.WorkerOrigin` | _worker.js:136 | the origin is `protocol + "//" + Host`, or `protocol + "//null"` when the header is missing |
| `Worker.RewriteChallenge` | _worker.js:131-139 | only `Www-Authenticate` may change, only for Docker Hub with a present, non-empty header; a header without `https://auth.docker.io` is unchanged; for an origin without `$`, exactly the first occurrence is replaced by the origin |
| `Worker.Relay` | _worker.js:141-144 | the relayed response keeps status and body, resets the status text, and carries the rewritten headers |
| `Worker.Handle` | _worker.js:54-145 | decoy paths return the decoy page and send nothing; `/token` sends the token request (or throws on bad credentials) and returns the upstream response as is; other paths send the proxied request and return the relayed response; a rejected fetch is a network failure |
| `Worker.Fetch` | _worker.js:54-145 | the step-by-step handler (locals reassigned, `pathParts` spliced, URL fields assigned, headers copied and set) returns exactly `Handle` |
| `Http.Set` | _worker.js:83 | `headers.set` adds or replaces one entry and leaves every other entry as it was |
| `Http.Get` | _worker.js:132-136 | `headers.get` gives null (None) exactly for an absent name, and otherwise the stored value |
| `Base64.Btoa` | _worker.js:82 | `btoa` succeeds iff every character is at most 255, and its output strictly decodes back to the input |
| `Base64.DecodeEncode` | _worker.js:82 | strictly decoding the base64 text of any byte sequence gives the bytes back |
| `Base64.EncodeDecode` | _worker.js:82 | every text the strict decoder accepts is the encoding of what it decodes to |
| `Base64.CanonicalText` | _worker.js:82 | two texts that decode to the same bytes are equal, so the output of `btoa` is the only text that decodes to its input |
| `Text.Split` | _worker.js:98 | `split('/')` yields at least one piece, and no piece contains the separator |
| `Text.JoinSplit` | _worker.js:98-113 | joining the pieces of a split gives the string back |
| `Text.JoinSeparators` | _worker.js:113 | `join` of separator-free pieces holds exactly one separator fewer than there are pieces |
| `Text.SplitJoin` | _worker.js:112-113 | splitting a join of separator-free pieces gives the pieces back |
| `Text.IndexOf` | _worker.js:138 | the reported position is the first at which the pattern occurs, and none is reported iff it occurs nowhere |
| `Text.Substitution` | _worker.js:138 | the replacement patterns of GetSubstitution when one is the whole replacement: `$$` gives `$`, `$&` the match, `` $` `` the text before it, `$'` the text after it; a replacement without `$` is inserted literally |
| `Text.SubstitutionLiteralHead` | _worker.js:138 | a `$`-free head of the replacement is copied as it is and the rest is substituted after it |
| `Text.SubstitutionPatternHead` | _worker.js:138 | each of `$$`, `$&`, `` $` ``, `$'` expands on its own whatever follows it, so patterns inside a longer replacement expand in place |
| `Text.SubstitutionOtherDollar` | _worker.js:138 | any other `$` (a final one, `$1`, `$<`) is copied literally |
| `Text.SubstitutionInside` | _worker.js:138 | a pattern between two `$`-free texts, as in `x$&y`, gives the first text, the pattern's expansion, then the second text |
| `Text.ReplaceFirst` | _worker.js:138 | `replace` with a string pattern: a string in which `IndexOf` finds nothing is unchanged; otherwise, for a `$`-free replacement, the text at the first occurrence is cut out and the replacement put in its place |
| `Text.ReplaceFirstLiteral` | _worker.js:138 | with a `$`-free replacement, exactly the first occurrence is cut out and the replacement put in its place |
| `Text.ReplaceFirstAbsent` | _worker.js:138 | a string without the pattern is unchanged |
| `WorkerProperties.PrefixPosition` | _worker.js:104-114 | for `seg0/seg1/prefix` followed by nothing or by `/...`, only `prefix` decides: a key routes to its host with exactly that segment removed, anything else keeps Docker Hub and the path, whatever the other segments are (segment 1 is not checked to be `v2`) |
| `WorkerProperties.VersionPrefixPosition` | _worker.js:104-114 | the same for `/v2/<prefix>...` paths |
| `WorkerProperties.GcrExample` | _worker.js:104-114 | `/v2/gcr/library/nginx/manifests/latest` goes to `gcr.io` as `/v2/library/nginx/manifests/latest`, leaving Docker Hub |
| `WorkerProperties.LibraryExample` | _worker.js:104-114 | `/v2/library/nginx/manifests/latest` has no ROUTES prefix and stays on Docker Hub with its path unchanged |
| `WorkerProperties.TrailingSlashExample` | _worker.js:104-114 | `/v2/` has an empty segment 2, which is not a key, so it stays on Docker Hub unchanged |
| `WorkerProperties.DeepKeyExample` | _worker.js:104-114 | in `/v2/library/gcr/image` the key `gcr` is segment 3, not 2, so the path stays on Docker Hub unchanged |
| `WorkerProperties.BareVersionPathMisses` | _worker.js:105 | `/v2` has only two segments and stays on Docker Hub unchanged |
| `WorkerProperties.ShortPathMisses` | _worker.js:99-105 | any path of two segments or fewer stays on Docker Hub unchanged |
| `WorkerProperties.TestPrefixIsNotDockerHub` | _worker.js:21 | the `test` prefix routes to `registry-1.docker.io` with the Docker Hub flag false, so its challenge is never rewritten |
| `WorkerProperties.DecoyPage` | _worker.js:60-68 | `/` and `/index.html` return status 200 with `text/html; charset=UTF-8` and the nginx page, and make no upstream call, whatever the rest of the request, the credentials or the network |
| `WorkerProperties.UpstreamCallIff` | _worker.js:60-90 | nothing is sent upstream iff the path is a decoy path, or it is `/token` with both credentials set and a character above 255 |
| `WorkerProperties.TokenExchangeTarget` | _worker.js:74-90 | `/token` is sent to `auth.docker.io` with GET and the inbound path and query, never to a ROUTES host |
| `WorkerProperties.CredentialRecovery` | _worker.js:81-83 | the injected header decodes, split at the first colon, to exactly the configured user name and password when the user name has no colon |
| `WorkerProperties.BasicCredentialUnique` | _worker.js:82-83 | two values that both satisfy the Basic-credential contract for the same user and password are the same text |
| `WorkerProperties.ColonInUserNameIsAmbiguous` | _worker.js:82 | user `a:b` with password `c` and user `a` with password `b:c` produce the same header |
| `WorkerProperties.RewriteAt` | _worker.js:135-138 | for a challenge `pre + "https://auth.docker.io" + suf` that names the token service nowhere before `pre` ends, and an origin without `$`, the rewritten header map is the old one with the challenge set to `pre + origin + suf` |
| `WorkerProperties.DockerHubChallengeRewritten` | _worker.js:125-144 | end to end, for a Docker Hub response whose challenge is `pre + "https://auth.docker.io" + suf` with no earlier occurrence, and protocol and Host free of `$`, the challenge reaches the client with `protocol//Host` in place of the token service; status, body and all other headers are the upstream's |
| `WorkerProperties.ProxyOutcome` | _worker.js:98-144 | a delivered registry request sends the proxied request and returns the relayed upstream response, whatever the credentials |
| `WorkerProperties.RelayedChallenge` | _worker.js:131-144 | relaying a Docker Hub response whose challenge is `pre + "https://auth.docker.io" + suf` with no earlier occurrence, for protocol and Host free of `$`, puts `protocol//Host` in its place and keeps status, body and every other header |
| `WorkerProperties.RewriteSettles` | _worker.js:138 | a second rewrite changes nothing once the rewritten challenge no longer names the token service |
| `WorkerProperties.RewriteNotIdempotent` | _worker.js:138 | for any origin without `$` whose length differs from that of `https://auth.docker.io`, a challenge naming the token service twice has only the first replaced, and a second pass changes it again |
| `WorkerProperties.TwiceRewrittenOnce` | _worker.js:138 | a challenge naming the token service twice keeps the second name after one pass |
| `WorkerProperties.RewriteChangesLength` | _worker.js:138 | a rewrite that finds the token service changes the challenge's length whenever the origin's length differs from that of `https://auth.docker.io` |

## Left out

- The `fetch` calls (`_worker.js:86`, `_worker.js:125`) are a function parameter. Redirect following, streaming of bodies and the construction of `Request`/`Response` objects are not modelled. Bodies are opaque identifiers passed through unread.
- The markup returned by `getNginxHtml` (`_worker.js:25-51`) is one opaque constant, `NginxWelcomePage`.
- URL parsing and normalisation (`new URL`, and the percent-encoding done by the `pathname` setter) are not modelled. Protocol, hostname, port, pathname and query are taken as given strings.
- `ROUTES[prefix]` in JavaScript is also truthy for inherited names such as `constructor` or `toString`. `ROUTES` is modelled as a finite map of its eight literal keys, so that quirk is not captured.
- Header names are case-insensitive in the Headers API. The model keys headers by their lower-case names and assumes the inbound map already uses them. `Headers.get` comma-joining several values for one name is not modelled.
- `btoa` works on JavaScript UTF-16 code units. The model's characters are Unicode scalar values, so lone surrogates, which `btoa` also rejects, cannot be expressed.
- An exception thrown anywhere other than by `btoa` or by a rejected `fetch` is not modelled.
- RewriteChallenge: for an origin (protocol and `Host`) containing `$`, the header is computed through `Substitution` as JavaScript does, but the contract states the rewritten header only for `$`-free origins. What each piece of a `$`-containing replacement expands to is stated by the `Substitution` lemmas, not carried through to the end-to-end lemmas.
