# gauth: a Dafny model of the JWT session middleware

gauth is a Go library that issues signed JSON Web Tokens (RFC 7519) for HTTP services and
checks them on incoming requests. This project models its request-authentication path and
proves properties of that model:

- `config.New` validates the token lifetime and substitutes a default for zero.
- `ComposeToken` / `ExtractToken` compose and verify a token: parse, check the signature,
  unmarshal, then run the claim validators in the order issued-at, expiration, audience,
  issuer, subject.
- `JwtToUser` (and its duplicate `getUser`) turn a token into a user: extract, refuse an
  empty ID, call the caller's lookup.
- The pipelines serve a request over one transport, a header or a cookie. In optional mode
  they always call the next handler, with the user attached when authentication succeeded.
  In required mode a failure is answered with 401 and the body
  `{"errors":[{"message":"Not Authorized."}]}`.
- `Login` writes a freshly composed token as an `X-<session>` header or as a session cookie
  (RFC 6265, section 4.1) whose attributes come from the configuration.

Modules, one per source file plus three helpers:

- `Errors`: error values and result types.
- `Http`: requests, cookies and the `ResponseRecorder` class. Its fields are the status,
  whether a status was written, the header, the Set-Cookie entries, the body, and the
  requests handed to the next handler, one per call (`NextCalls()` counts them).
- `Jwt`: the third-party jwt package.
- `Config`, `Token`, `JwtConverter`, `Base`, `Context`, `Auth`, `Login`: the core.

The jwt package is modelled as two records of functions: a `Signer(sign, verify)` and a
`Codec(marshal, unmarshal, parse)`. The model does not look inside them. What the
middleware relies on is stated as predicates, and the lemmas assume them:

- `RoundTrips`: unmarshal undoes marshal.
- `SignsVerifiably`: a signed payload parses back with a signature that verifies.
- `RejectsEmptyToken`: the empty string is not a token.

The modelled source files come from different revisions, and their signatures disagree:

- `ExtractToken` takes a signer plus audience, issuer and subject, while `JwtToUser` passes
  a configuration.
- `auth.go` omits the transport name that `base.go` expects.

The model uses one `Config` record for everything and passes the header or cookie name to
each pipeline explicitly.

Each pipeline closure becomes a method that serves one request and updates the recorder.
Its postcondition ties the recorder's new state to a pure decision: either `CallNext(request)`
or `Unauthorized`.

The claim validators are read as follows:

- The issued-at check accepts `iat <= now`.
- The expiration check accepts `now < exp`, as section 4.1.4 of RFC 7519 asks.
- Time is in whole Unix seconds.

The library's tests (middleware/context_test.go:73-89) expect a token refresh after each
successful request. No code in the modelled files performs one, so the model follows the code
and has none.

## Model

| member | source | states |
|---|---|---|
| Config.New | config/config.go:45-68 | fails, with "expireIn must be 0-included positive time.Duration", exactly when the lifetime is negative; on success the lifetime is strictly positive, the default 3600 minutes when zero was given and unchanged otherwise, and every other argument is copied verbatim |
| Config.NewIsIdempotent | config/config.go:54-67 | feeding a configuration produced by New back into New yields the same configuration |
| Config.NormalisedIsReachable | config/config.go:54-67 | every configuration with a positive lifetime is what New returns for its own fields, so New's range is exactly the normalised configurations |
| Jwt.FirstRejection | core/token.go:37-43 | the position returned is of a validator that rejects, all earlier ones accept, and none is returned exactly when all accept |
| Jwt.Accepts | core/token.go:38-42 | the five validators: issued-at accepts iat <= now, expiration accepts now < exp, audience, issuer and subject accept exact equality with the expected values |
| Jwt.Validate | core/token.go:37-43 | passes exactly when every validator accepts; otherwise the error names a rejecting validator |
| Token.ComposeToken | core/token.go:8-15 | fails exactly when the signer fails, with the signer's error; for a sound signer and codec the token parses, verifies and unmarshals to the given claims |
| Token.ExtractToken | core/token.go:18-48 | a parse error is returned as is; a success is an authentic token whose claims pass every check; every authentic token with valid claims succeeds with exactly those claims |
| Token.ValidationMeansClaimsValid | core/token.go:36-43 | running the five validators in order passes exactly when iat <= now < exp and audience, issuer and subject match |
| Token.BadSignatureStopsBeforeUnmarshal | core/token.go:30-32 | a failing signature check returns the verifier's error, and the result is the same whatever Unmarshal would do |
| Token.UnmarshalFailurePropagates | core/token.go:33-35 | an unmarshal failure after a good signature is returned, with no claims |
| Token.ValidatorsRunInOrder | core/token.go:36-46 | for an authentic token the error is the first failing check in the order issued-at, expiration, audience, issuer, subject, and success when all pass |
| Token.IdAndNotBeforeNotValidated | core/token.go:37-43 | two authentic tokens whose claims differ only in ID or not-before are accepted or rejected alike, with the same error |
| Token.ComposeThenExtract | core/token_test.go:23-47 | a token composed from claims and extracted inside its window with the claims' own audience, issuer and subject gives back those claims |
| Token.ExpiredTokenRejected | core/token.go:39 | a composed token whose expiration is not after now (not issued in the future) is rejected with the expiration error |
| JwtConverter.JwtToUser | middleware/jwt_converter.go:15-33 | an extraction error is returned as is; an empty ID gives "Not authenticated user"; otherwise the result is exactly the lookup's result for (con, ID) |
| JwtConverter.UserOnlyFromValidToken | middleware/jwt_converter.go:21-32 | a returned user comes only from an authentic, currently valid token with a non-empty ID, and is the lookup's answer for that ID |
| JwtConverter.LookupOnlyForNonEmptyId | middleware/jwt_converter.go:21-27 | when extraction fails or the ID is empty the result is an error and does not depend on the lookup |
| JwtConverter.ValidTokenReachesLookup | middleware/jwt_converter.go:28-32 | for a valid composed token with a non-empty ID the result is the lookup's result: the user, or the lookup's error |
| JwtConverter.EmptyIdRejected | middleware/jwt_converter.go:25-27 | a valid composed token with an empty ID yields "Not authenticated user" |
| JwtConverter.ExpiredTokenRefused | middleware/jwt_converter.go:21-24 | an expired composed token yields the expiration error whatever its ID |
| Base.Respond | middleware/base.go:25-33 | calling next records one call with the request and writes nothing; refusing writes 401 (a status already written stays) and appends the body without calling next; neither changes the header or the cookies set |
| Base.HeaderAuthentication | middleware/base.go:71-72 | the named header's first value (or "") yields the extraction error, "Not authenticated user" for an empty ID, or the lookup's answer for the ID |
| Base.CookieAuthentication | middleware/base.go:45-50 | no cookie of that name gives the no-cookie error; otherwise the cookie's value yields the extraction error, "Not authenticated user" for an empty ID, or the lookup's answer |
| Base.ExactlyOneEnding | middleware/base.go:44-58 | every decision either calls the next handler once with nothing written, or writes 401 and the error body without calling it, never both |
| Base.ErrorDecision | middleware/base.go:25-33 | processError refuses exactly when failOnError is set and otherwise passes the request on unchanged |
| Base.Authorize | middleware/base.go:50-57 | refuses exactly on an authentication failure with failOnError set; a success passes the request with the user attached, a tolerated failure passes it unchanged |
| Base.ProcessError | middleware/base.go:17-34 | writes status 401 and the Not Authorized body, or calls the next handler with the request, as ErrorDecision says |
| Base.CookieMiddlewareBase | middleware/base.go:36-60 | the recorder ends in the state the cookie decision prescribes: a missing cookie or a JwtToUser failure goes to processError, a success calls next with the user |
| Base.HeaderMiddlewareBase | middleware/base.go:62-82 | the recorder ends in the state the header decision prescribes: a JwtToUser failure goes to processError, a success calls next with the user |
| Base.MissingCookieShortCircuits | middleware/base.go:45-49 | without the named cookie the outcome is the no-cookie error whatever the lookup, codec or configuration |
| Base.HeaderPipelineIgnoresCookies | middleware/base.go:70-79 | replacing the request's cookies changes neither the header pipeline's authentication nor its decision |
| Base.CookiePipelineIgnoresHeader | middleware/base.go:44-57 | replacing the request's headers other than Cookie changes neither the cookie pipeline's authentication nor its decision |
| Base.MissingHeaderNotAuthenticated | middleware/base.go:71-76 | a request without the named header is not authenticated by the header pipeline |
| Context.GetUser | middleware/context.go:25-43 | the same three outcomes as JwtToUser: extraction error, "Not authenticated user", or the lookup's result |
| Context.GetUserIsJwtToUser | middleware/context.go:25-43 | getUser and JwtToUser agree on every input |
| Context.Populate | middleware/context.go:57-64 | the request handed on keeps its header and cookies and carries the user exactly when authentication succeeded |
| Context.OptionalCookieAuthentication | middleware/context.go:79-84 | the cookie lookup followed by getUser gives the same result as the base pipeline's cookie authentication with JwtToUser |
| Context.OptionalIsBaseWithoutFailOnError | middleware/context.go:47-95 | both optional middlewares decide as the base pipelines do with failOnError off |
| Context.HeaderMiddleware | middleware/context.go:47-67 | calls the next handler exactly once, with the user when getUser succeeds and the original request otherwise, writing nothing |
| Context.CookieMiddleware | middleware/context.go:71-95 | calls the next handler exactly once, with the user when the cookie exists and getUser succeeds and the original request otherwise, writing nothing |
| Context.NoCookieNoUser | middleware/context.go:79-83 | without the named cookie the original request is handed on and the outcome does not depend on the lookup |
| Context.OptionalAnswersOK | middleware/context_test.go:154-193 | running HeaderMiddleware and CookieMiddleware on fresh recorders leaves status 200, an empty body and exactly one call to next, whose request carries the user exactly when authentication succeeded |
| Auth.HeaderLoginRequired | middleware/auth.go:15-21 | behaves as the header base pipeline with failOnError set |
| Auth.CookieLoginRequired | middleware/auth.go:27-33 | behaves as the cookie base pipeline with failOnError set |
| Auth.RequiredRefusesFailure | middleware/base.go:25-31 | in required mode any authentication failure leaves 401, the Not Authorized body and no call to next |
| Auth.HeaderRequiredAdmitsValidToken | middleware/auth_test.go:37-44 | a valid token in the named header gives 200 and the found user reaches the next handler |
| Auth.CookieRequiredAdmitsValidToken | middleware/auth_test.go:102-109 | a valid token in the named cookie gives 200 and the found user reaches the next handler |
| Auth.HeaderRequiredRefusesBadToken | middleware/auth_test.go:45-68 | an empty ID, an expired token or a failing lookup each give 401 with the Not Authorized body |
| Auth.CookieRequiredRefusesBadToken | middleware/auth_test.go:118-144 | an empty ID, an expired token or a failing lookup in the named cookie each give 401 with the Not Authorized body |
| Auth.RequiredRefusesWrongTransport | middleware/auth_test.go:69-76 | a token on the other transport, or under another cookie name, gives 401 |
| Login.MaxAge | core/login.go:32 | the lifetime in whole seconds, truncated toward zero: s seconds with s*1s <= lifetime < (s+1)*1s for a non-negative lifetime |
| Login.SessionCookie | core/login.go:26-36 | the cookie carries the token under the session name with the configured path, domain, Secure, HttpOnly and SameSite, expires the lifetime after now, and has Max-Age the lifetime in whole seconds |
| Login.Issued | core/login.go:22-36 | Login never writes a status, a body or a call to next; header mode adds X-<session> and sets no cookie, cookie mode sets exactly the session cookie and no other header |
| Login.Login | core/login.go:14-38 | a composition error for getID(user) is returned and nothing is written; otherwise nil is returned and exactly the header or the cookie is written |
| Login.HeaderLoginAddsOneHeader | core/login.go:22-25 | in header mode the token becomes the one new value of X-<session>, no other header changes and no cookie is set |
| Login.CookieLoginSetsSessionCookie | core/login.go:26-36 | in cookie mode exactly one cookie is set, named after the session, carrying the token, with the configured attributes, Expires = now + lifetime and Max-Age the lifetime in whole seconds |
| Login.DefaultLifetimeLogin | core/login_test.go:35-68 | a cookie-mode configuration from config.New with a zero lifetime, then Login on a fresh recorder: on success exactly one session cookie, expiring 3600 minutes after now, with Max-Age 216000; nothing else written |

## Left out

- HMAC signing, base64 and JWS parsing, and JSON marshalling from the jwt package. These are
  foreign library code. They are abstract functions, and the guarantees the middleware
  relies on are stated as predicates.
- The exact boundaries of the jwt package's validators. The model uses `iat <= now` and
  `now < exp` in whole seconds. The package compares against a sub-second clock.
- An expiration time of zero is treated like any other value. The package's handling of an
  unset expiration is not modelled.
- The wall clock (`time.Now()` in `ExtractToken`, `clock.Clock` in `Login`) is a parameter.
  `middleware/clock.go` is not part of this model.
- `ComposeID` is not part of this model. `Login` receives it as a possibly failing
  function of the ID and the configuration.
- `log.Print` of errors is not modelled: logging has no effect on the response.
- `processError` sets a Content-Type header after `WriteHeader`. net/http does not send a
  header changed after the status is written, so the model leaves it out.
- Context values are reduced to the one user slot under the middleware's private key.
- Cookies are kept apart from the `Cookie` and `Set-Cookie` headers. A request's `header` map
  holds every header but `Cookie`, whose contents are its `cookies`. A recorder's `header` holds
  the response headers other than `Set-Cookie`, whose entries are its `setCookies`, as net/http
  sends them: the Content-Type set after the status is not among them. Statements that a
  header is unchanged are about these maps.
- Header-name canonicalisation in net/http is not modelled: header keys are compared as
  given.
- net/http validates cookie names and values before sending a cookie. This is not modelled,
  so `Login` always records the cookie it builds.
- net/http's JSON encoding is reduced to its output text.
- What the next handler itself writes is not modelled. The recorder only records that the
  handler was called and with which request.
- Token refresh, that is a re-issued cookie or header after a successful request: no code in
  the modelled files implements it.
- `models/user.go`, `core/interfaces.go` and `core/config.go` are type declarations. They
  appear only as the user type parameter and the `Config` record.
