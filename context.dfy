/** The optional-mode middlewares of middleware/context.go: they attach the user when the
    token is good and otherwise hand the request on untouched; they never refuse one. */
module Context {
  import opened Errors
  import opened Http
  import opened Jwt
  import opened Token
  import opened JwtConverter
  import opened Base
  import Config

  /** `getUser`: the same three steps as `JwtToUser` (extract, reject an empty ID, look up). */
  function GetUser<C, U>(
    c: string, findUser: (C, string) -> Result<U>, con: C,
    conf: Config.Config, codec: Codec, now: int): (r: Result<U>)
    ensures var t := ExtractToken(c, conf.signer, codec, conf.audience, conf.issuer, conf.subject, now);
      && (t.Failure? ==> r == Failure(t.error))
      && (t.Success? && t.value.id == "" ==> r == Failure(Message(NotAuthenticatedUserText)))
      && (t.Success? && t.value.id != "" ==> r == findUser(con, t.value.id))
  {
    match ExtractToken(c, conf.signer, codec, conf.audience, conf.issuer, conf.subject, now)
    case Failure(e) => Failure(e)
    case Success(token) =>
      if |token.id| < 1 then Failure(Message(NotAuthenticatedUserText))
      else
        match findUser(con, token.id)
        case Failure(e) => Failure(e)
        case Success(user) => Success(user)
  }

  /** `getUser` and `JwtToUser` agree on every input. */
  lemma GetUserIsJwtToUser<C, U>(
    c: string, findUser: (C, string) -> Result<U>, con: C,
    conf: Config.Config, codec: Codec, now: int)
    ensures GetUser(c, findUser, con, conf, codec, now) == JwtToUser(c, findUser, con, conf, codec, now)
  {
  }

  /** The request the optional middlewares hand on: with the user attached when there is
      one, unchanged otherwise. */
  function Populate<U>(r: Request<U>, auth: Result<U>): (q: Request<U>)
    ensures q.header == r.header && q.cookies == r.cookies
    ensures q.user == (if auth.Success? then Some(auth.value) else r.user)
  {
    match auth
    case Success(user) => r.WithUser(user)
    case Failure(_) => r
  }

  /** Cookie-transport authentication as `CookieMiddleware` performs it, with `getUser`:
      it agrees with the base pipeline's, which uses `JwtToUser`. */
  function OptionalCookieAuthentication<C, U>(
    cookieName: string, con: C, findUser: (C, string) -> Result<U>,
    conf: Config.Config, codec: Codec, now: int, r: Request<U>): (a: Result<U>)
    ensures a == CookieAuthentication(cookieName, con, findUser, conf, codec, now, r)
  {
    match r.Cookie(cookieName)
    case Failure(e) => Failure(e)
    case Success(value) => GetUser(value, findUser, con, conf, codec, now)
  }

  /** The optional middlewares behave as the base pipelines with `failOnError` off: the
      next handler is always called, with the user when authentication succeeded. */
  lemma OptionalIsBaseWithoutFailOnError<C, U>(
    headerName: string, cookieName: string, con: C, findUser: (C, string) -> Result<U>,
    conf: Config.Config, codec: Codec, now: int, r: Request<U>)
    ensures var header := GetUser(r.HeaderGet(headerName), findUser, con, conf, codec, now);
      Authorize(r, HeaderAuthentication(headerName, con, findUser, conf, codec, now, r), false)
        == CallNext(Populate(r, header))
    ensures var cookie := OptionalCookieAuthentication(cookieName, con, findUser, conf, codec, now, r);
      Authorize(r, CookieAuthentication(cookieName, con, findUser, conf, codec, now, r), false)
        == CallNext(Populate(r, cookie))
  {
    GetUserIsJwtToUser(r.HeaderGet(headerName), findUser, con, conf, codec, now);
    if r.Cookie(cookieName).Success? {
      GetUserIsJwtToUser(r.Cookie(cookieName).value, findUser, con, conf, codec, now);
    }
  }

  /** The handler `HeaderMiddleware` builds, serving one request `r`: the next handler is
      called exactly once and no status is written. */
  method HeaderMiddleware<C, U>(
    headerName: string, con: C, findUser: (C, string) -> Result<U>,
    conf: Config.Config, codec: Codec, now: int,
    w: ResponseRecorder<U>, r: Request<U>)
    modifies w
    ensures w.State() == old(w.State()).Forwarded(
      Populate(r, GetUser(r.HeaderGet(headerName), findUser, con, conf, codec, now)))
    ensures w.NextCalls() == old(w.NextCalls()) + 1
  {
    var c := r.HeaderGet(headerName);
    var user := GetUser(c, findUser, con, conf, codec, now);
    if user.Failure? {
      w.ServeNext(r);
      return;
    }
    w.ServeNext(r.WithUser(user.value));
  }

  /** The handler `CookieMiddleware` builds, serving one request `r`: the next handler is
      called exactly once and no status is written. */
  method CookieMiddleware<C, U>(
    cookieName: string, con: C, findUser: (C, string) -> Result<U>,
    conf: Config.Config, codec: Codec, now: int,
    w: ResponseRecorder<U>, r: Request<U>)
    modifies w
    ensures w.State() == old(w.State()).Forwarded(
      Populate(r, OptionalCookieAuthentication(cookieName, con, findUser, conf, codec, now, r)))
    ensures w.NextCalls() == old(w.NextCalls()) + 1
  {
    var c := r.Cookie(cookieName);
    if c.Failure? {
      w.ServeNext(r);
      return;
    }
    var user := GetUser(c.value, findUser, con, conf, codec, now);
    if user.Failure? {
      w.ServeNext(r);
      return;
    }
    w.ServeNext(r.WithUser(user.value));
  }

  /** Without a cookie of the configured name, `CookieMiddleware` hands on the original
      request and its outcome does not depend on the lookup. */
  lemma NoCookieNoUser<C, U>(
    cookieName: string, con: C, findUser: (C, string) -> Result<U>, otherFindUser: (C, string) -> Result<U>,
    conf: Config.Config, codec: Codec, now: int, r: Request<U>)
    requires forall i :: 0 <= i < |r.cookies| ==> r.cookies[i].name != cookieName
    ensures Populate(r, OptionalCookieAuthentication(cookieName, con, findUser, conf, codec, now, r)) == r
    ensures OptionalCookieAuthentication(cookieName, con, findUser, conf, codec, now, r)
         == OptionalCookieAuthentication(cookieName, con, otherFindUser, conf, codec, now, r)
  {
  }

  /** On recorders fresh from `httptest.NewRecorder`, both optional middlewares leave the
      status at 200 and the body empty, and call the next handler once, with the user
      attached exactly when authentication succeeded (an empty ID, an expired token, a
      lookup error or a token on the other transport all leave the request as it was). */
  method OptionalAnswersOK<C, U>(
    headerName: string, cookieName: string, con: C, findUser: (C, string) -> Result<U>,
    conf: Config.Config, codec: Codec, now: int, r: Request<U>)
    returns (hw: ResponseRecorder<U>, cw: ResponseRecorder<U>)
    ensures hw.code == StatusOK && !hw.wroteHeader && hw.body == "" && hw.NextCalls() == 1
    ensures var auth := HeaderAuthentication(headerName, con, findUser, conf, codec, now, r);
      hw.forwarded[0].user == (if auth.Success? then Some(auth.value) else r.user)
    ensures cw.code == StatusOK && !cw.wroteHeader && cw.body == "" && cw.NextCalls() == 1
    ensures var auth := CookieAuthentication(cookieName, con, findUser, conf, codec, now, r);
      cw.forwarded[0].user == (if auth.Success? then Some(auth.value) else r.user)
  {
    hw := new ResponseRecorder<U>();
    HeaderMiddleware(headerName, con, findUser, conf, codec, now, hw, r);
    GetUserIsJwtToUser(r.HeaderGet(headerName), findUser, con, conf, codec, now);
    cw := new ResponseRecorder<U>();
    CookieMiddleware(cookieName, con, findUser, conf, codec, now, cw, r);
  }
}
