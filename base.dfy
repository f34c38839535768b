/** The shared pipelines of middleware/base.go. A pipeline serves one request: it reads
    the token from its transport, turns it into a user, and then either calls the next
    handler (with the user in the request's context when there is one) or, when
    `failOnError` is set and authentication failed, answers 401 with a fixed body. */
module Base {
  import opened Errors
  import opened Http
  import opened Jwt
  import opened Token
  import opened JwtConverter
  import Config

  /** The body `processError` encodes: `{"errors":[{"message":"Not Authorized."}]}` as
      written by a JSON encoder, which ends it with a newline. */
  const NotAuthorizedBody := "{\"errors\":[{\"message\":\"Not Authorized.\"}]}\n"

  /** How a pipeline ends a request: the next handler is called with `request`, or the
      401 response is written. */
  datatype Decision<U> = CallNext(request: Request<U>) | Unauthorized

  /** What a decision does to the response recorder: calling the next handler records the
      call and writes nothing; refusing writes 401 (unless a status was already written)
      and the body, whose implicit 200 does not override the 401. Neither touches the
      header or the cookies set. */
  function Respond<U>(s: Recording<U>, d: Decision<U>): (t: Recording<U>)
    ensures t.header == s.header && t.setCookies == s.setCookies
    ensures d.CallNext? ==>
      && t.forwarded == s.forwarded + [d.request]
      && t.code == s.code && t.wroteHeader == s.wroteHeader && t.body == s.body
    ensures d.Unauthorized? ==>
      && t.forwarded == s.forwarded && t.wroteHeader
      && t.code == (if s.wroteHeader then s.code else StatusUnauthorized)
      && t.body == s.body + NotAuthorizedBody
  {
    match d
    case CallNext(q) => s.Forwarded(q)
    case Unauthorized => s.WithStatus(StatusUnauthorized).Written(NotAuthorizedBody)
  }

  /** Every request ends in exactly one way: either the next handler is called once and
      nothing is written, or the 401 status and body are written and the next handler is
      not called. */
  lemma ExactlyOneEnding<U>(s: Recording<U>, d: Decision<U>)
    ensures var t := Respond(s, d);
      (|t.forwarded| == |s.forwarded| + 1 && t.code == s.code && t.body == s.body)
      != (t.forwarded == s.forwarded && t.wroteHeader && t.body == s.body + NotAuthorizedBody
          && (!s.wroteHeader ==> t.code == StatusUnauthorized))
    ensures Respond(s, d).header == s.header && Respond(s, d).setCookies == s.setCookies
  {
  }

  /** The decision of `processError`: refuse in required mode, pass the request on
      untouched otherwise. */
  function ErrorDecision<U>(r: Request<U>, failOnError: bool): (d: Decision<U>)
    ensures d.Unauthorized? <==> failOnError
    ensures d.CallNext? ==> d.request == r
  {
    if failOnError then Unauthorized else CallNext(r)
  }

  /** The decision of a base pipeline once authentication has produced `auth`. */
  function Authorize<U>(r: Request<U>, auth: Result<U>, failOnError: bool): (d: Decision<U>)
    ensures d.Unauthorized? <==> auth.Failure? && failOnError
    ensures d.CallNext? && auth.Success? ==> d.request == r.WithUser(auth.value)
    ensures d.CallNext? && auth.Failure? ==> d.request == r
  {
    match auth
    case Success(user) => CallNext(r.WithUser(user))
    case Failure(_) => ErrorDecision(r, failOnError)
  }

  /** Authentication over the header transport: the named header's value (or "") goes to
      `JwtToUser`, so the outcome is the extraction error, the empty-ID error or the
      lookup's answer for the token's ID. */
  function HeaderAuthentication<C, U>(
    headerName: string, con: C, findUser: (C, string) -> Result<U>,
    conf: Config.Config, codec: Codec, now: int, r: Request<U>): (a: Result<U>)
    ensures var t := ExtractToken(r.HeaderGet(headerName), conf.signer, codec, conf.audience, conf.issuer, conf.subject, now);
      && (t.Failure? ==> a == Failure(t.error))
      && (t.Success? && t.value.id == "" ==> a == Failure(Message(NotAuthenticatedUserText)))
      && (t.Success? && t.value.id != "" ==> a == findUser(con, t.value.id))
  {
    JwtToUser(r.HeaderGet(headerName), findUser, con, conf, codec, now)
  }

  /** Authentication over the cookie transport: a missing cookie is an error before any
      token work; otherwise the cookie's value goes to `JwtToUser`. */
  function CookieAuthentication<C, U>(
    cookieName: string, con: C, findUser: (C, string) -> Result<U>,
    conf: Config.Config, codec: Codec, now: int, r: Request<U>): (a: Result<U>)
    ensures (forall i :: 0 <= i < |r.cookies| ==> r.cookies[i].name != cookieName) ==> a == Failure(NoCookie)
    ensures r.Cookie(cookieName).Success? ==>
      var t := ExtractToken(r.Cookie(cookieName).value, conf.signer, codec, conf.audience, conf.issuer, conf.subject, now);
      && (t.Failure? ==> a == Failure(t.error))
      && (t.Success? && t.value.id == "" ==> a == Failure(Message(NotAuthenticatedUserText)))
      && (t.Success? && t.value.id != "" ==> a == findUser(con, t.value.id))
  {
    match r.Cookie(cookieName)
    case Failure(e) => Failure(e)
    case Success(value) => JwtToUser(value, findUser, con, conf, codec, now)
  }

  /** `processError`: in required mode write 401 and the error body and stop; otherwise
      call the next handler with the request unchanged. The error is only logged. */
  method ProcessError<U>(w: ResponseRecorder<U>, r: Request<U>, err: Error, failOnError: bool)
    modifies w
    ensures w.State() == Respond(old(w.State()), ErrorDecision(r, failOnError))
  {
    if failOnError {
      w.WriteHeader(StatusUnauthorized);
      w.Write(NotAuthorizedBody);
      return;
    }
    w.ServeNext(r);
  }

  /** The handler `cookieMiddlewareBase` builds, serving one request `r`. */
  method CookieMiddlewareBase<C, U>(
    cookieName: string, con: C, findUser: (C, string) -> Result<U>,
    conf: Config.Config, codec: Codec, failOnError: bool, now: int,
    w: ResponseRecorder<U>, r: Request<U>)
    modifies w
    ensures w.State() == Respond(old(w.State()),
      Authorize(r, CookieAuthentication(cookieName, con, findUser, conf, codec, now, r), failOnError))
  {
    var c := r.Cookie(cookieName);
    if c.Failure? {
      ProcessError(w, r, c.error, failOnError);
      return;
    }
    var user := JwtToUser(c.value, findUser, con, conf, codec, now);
    if user.Failure? {
      ProcessError(w, r, user.error, failOnError);
      return;
    }
    w.ServeNext(r.WithUser(user.value));
  }

  /** The handler `headerMiddlewareBase` builds, serving one request `r`. */
  method HeaderMiddlewareBase<C, U>(
    headerName: string, con: C, findUser: (C, string) -> Result<U>,
    conf: Config.Config, codec: Codec, failOnError: bool, now: int,
    w: ResponseRecorder<U>, r: Request<U>)
    modifies w
    ensures w.State() == Respond(old(w.State()),
      Authorize(r, HeaderAuthentication(headerName, con, findUser, conf, codec, now, r), failOnError))
  {
    var c := r.HeaderGet(headerName);
    var user := JwtToUser(c, findUser, con, conf, codec, now);
    if user.Failure? {
      ProcessError(w, r, user.error, failOnError);
      return;
    }
    w.ServeNext(r.WithUser(user.value));
  }

  /** A missing cookie is refused before any token work: the outcome is the no-cookie
      error whatever the lookup, the codec or the configuration. */
  lemma MissingCookieShortCircuits<C, U>(
    cookieName: string, con: C, findUser: (C, string) -> Result<U>, otherFindUser: (C, string) -> Result<U>,
    conf: Config.Config, otherConf: Config.Config, codec: Codec, otherCodec: Codec, now: int, r: Request<U>)
    requires forall i :: 0 <= i < |r.cookies| ==> r.cookies[i].name != cookieName
    ensures CookieAuthentication(cookieName, con, findUser, conf, codec, now, r) == Failure(NoCookie)
    ensures CookieAuthentication(cookieName, con, otherFindUser, otherConf, otherCodec, now, r) == Failure(NoCookie)
  {
  }

  /** The header pipeline never looks at cookies: replacing the request's cookies changes
      neither the authentication nor the decision, apart from the cookies of the request
      handed on. */
  lemma HeaderPipelineIgnoresCookies<C, U>(
    headerName: string, con: C, findUser: (C, string) -> Result<U>,
    conf: Config.Config, codec: Codec, failOnError: bool, now: int,
    r: Request<U>, cookies: seq<RequestCookie>)
    ensures HeaderAuthentication(headerName, con, findUser, conf, codec, now, r.(cookies := cookies))
         == HeaderAuthentication(headerName, con, findUser, conf, codec, now, r)
    ensures var d := Authorize(r, HeaderAuthentication(headerName, con, findUser, conf, codec, now, r), failOnError);
            var d' := Authorize(r.(cookies := cookies),
                                HeaderAuthentication(headerName, con, findUser, conf, codec, now, r.(cookies := cookies)),
                                failOnError);
      && d.Unauthorized? == d'.Unauthorized?
      && (d.CallNext? ==> d'.request == d.request.(cookies := cookies))
  {
  }

  /** The cookie pipeline never looks at the header map, in the same sense. The map holds
      every request header but `Cookie`, whose contents are the request's `cookies`. */
  lemma CookiePipelineIgnoresHeader<C, U>(
    cookieName: string, con: C, findUser: (C, string) -> Result<U>,
    conf: Config.Config, codec: Codec, failOnError: bool, now: int,
    r: Request<U>, header: map<string, seq<string>>)
    ensures CookieAuthentication(cookieName, con, findUser, conf, codec, now, r.(header := header))
         == CookieAuthentication(cookieName, con, findUser, conf, codec, now, r)
    ensures var d := Authorize(r, CookieAuthentication(cookieName, con, findUser, conf, codec, now, r), failOnError);
            var d' := Authorize(r.(header := header),
                                CookieAuthentication(cookieName, con, findUser, conf, codec, now, r.(header := header)),
                                failOnError);
      && d.Unauthorized? == d'.Unauthorized?
      && (d.CallNext? ==> d'.request == d.request.(header := header))
  {
  }

  /** A request without the named header (a token sent by cookie, say) is not
      authenticated by the header pipeline, since the empty string is no token. */
  lemma MissingHeaderNotAuthenticated<C, U>(
    headerName: string, con: C, findUser: (C, string) -> Result<U>,
    conf: Config.Config, codec: Codec, now: int, r: Request<U>)
    requires RejectsEmptyToken(codec)
    requires headerName !in r.header
    ensures HeaderAuthentication(headerName, con, findUser, conf, codec, now, r).Failure?
  {
  }
}
